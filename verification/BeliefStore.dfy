/** The belief table and its upsert: an incoming claim is weighed against the live beliefs under its key and is then
    inserted, supersedes them, stands beside them, or is turned away. */
module BeliefStore {
  import opened BeliefStrength
  import opened Options

  datatype Status = Active | Suspect | Superseded | Revoked | Expired

  /** The identity of a claim; a discriminator makes it multi-valued. */
  datatype Key = Key(subject: string, pred: Predicate, scope: Scope, discriminator: Option<string>)

  datatype Group = Group(subject: string, pred: Predicate, scope: Scope)

  /** A row; rows are identified by the order of their insertion. */
  datatype Belief = Belief(project: string, key: Key, claim: Claim, value: string, validTo: Option<int>,
                           supersedes: Option<nat>, supersededBy: Option<nat>, group: Option<Group>,
                           status: Status, createdAt: int, updatedAt: int)

  datatype Candidate = Candidate(project: string, subject: string, pred: Predicate, scope: Scope, discriminator: Option<string>,
                                 value: string, confidence: real, trust: Option<real>, source: SourceType,
                                 validFrom: Option<int>, validTo: Option<int>)

  datatype Reason = SameValue | TooBroad | HigherStrength | Conditional | Restatement | ExistingStronger

  datatype Decision =
    | Insert
    | SupersedeExisting(ids: seq<nat>)
    | CoexistConditional(reason: Reason)
    | RejectIncoming(reason: Reason)

  datatype Outcome = Written(id: nat) | TurnedAway(reason: Reason) | Failed

  function ToCanonicalKey(c: Candidate): Key {
    Key(c.subject, c.pred, c.scope, c.discriminator)
  }

  function ClaimOf(c: Candidate, now: int): Claim {
    Claim(c.confidence, if c.trust.Some? then c.trust.value else SourceTrust(c.source), c.source,
          if c.validFrom.Some? then c.validFrom.value else now, c.scope, c.pred)
  }

  predicate Under(b: Belief, key: Key, project: string) {
    b.key == key && b.project == project
  }

  predicate Live(b: Belief) {
    b.status == Active || b.status == Suspect
  }

  /** Newest validity first, then newest creation. */
  predicate NoOlder(a: Belief, b: Belief) {
    a.claim.validFrom > b.claim.validFrom || (a.claim.validFrom == b.claim.validFrom && a.createdAt >= b.createdAt)
  }

  ghost predicate InRange(rows: seq<Belief>, ids: seq<nat>) {
    forall k :: 0 <= k < |ids| ==> ids[k] < |rows|
  }

  function Placed(rows: seq<Belief>, ids: seq<nat>, i: nat): (r: seq<nat>)
    requires InRange(rows, ids) && i < |rows|
    ensures InRange(rows, r)
    ensures forall j: nat :: j in r <==> j in ids || j == i
  {
    if ids == [] then [i]
    else if NoOlder(rows[i], rows[ids[0]]) then [i] + ids
    else
      [ids[0]] + Placed(rows, ids[1..], i)
  }

  /** The rows under a key among the first `n`, newest first. */
  function FindUpTo(rows: seq<Belief>, n: nat, key: Key, project: string): (r: seq<nat>)
    requires n <= |rows|
    ensures InRange(rows, r)
    ensures forall j: nat :: j in r <==> j < n && Under(rows[j], key, project)
  {
    if n == 0 then []
    else
      var prior := FindUpTo(rows, n - 1, key, project);
      if Under(rows[n - 1], key, project) then Placed(rows, prior, n - 1) else prior
  }

  function FindByCanonicalKey(rows: seq<Belief>, key: Key, project: string): (r: seq<nat>)
    ensures InRange(rows, r)
    ensures forall j: nat :: j in r <==> j < |rows| && Under(rows[j], key, project)
  {
    FindUpTo(rows, |rows|, key, project)
  }

  function LiveOf(rows: seq<Belief>, ids: seq<nat>): (r: seq<nat>)
    requires InRange(rows, ids)
    ensures InRange(rows, r)
    ensures forall j: nat :: j in r <==> j in ids && Live(rows[j])
  {
    if ids == [] then []
    else
      var last := ids[|ids| - 1];
      LiveOf(rows, ids[..|ids| - 1]) + if Live(rows[last]) then [last] else []
  }

  /* ---------- the decision ---------- */

  predicate Contradicts(c: Candidate, b: Belief) {
    c.value != b.value
  }

  function Weighed(c: Candidate, b: Belief, now: int, decay: Decay): Verdict {
    CompareBeliefs(ClaimOf(c, now), b.claim, now, decay)
  }

  predicate Narrower(c: Candidate, b: Belief) {
    ScopePriority(b.claim.scope) > ScopePriority(c.scope)
  }

  /** The rows the candidate contradicts and beats. */
  function Beaten(rows: seq<Belief>, c: Candidate, ids: seq<nat>, now: int, decay: Decay): (r: seq<nat>)
    requires InRange(rows, ids)
    ensures InRange(rows, r)
    ensures forall j: nat :: j in r <==> j in ids && Contradicts(c, rows[j]) && Weighed(c, rows[j], now, decay) == Incoming
  {
    if ids == [] then []
    else
      var last := ids[|ids| - 1];
      Beaten(rows, c, ids[..|ids| - 1], now, decay) +
      if Contradicts(c, rows[last]) && Weighed(c, rows[last], now, decay) == Incoming then [last] else []
  }

  predicate Defends(rows: seq<Belief>, c: Candidate, i: nat, now: int, decay: Decay) {
    i < |rows| && Contradicts(c, rows[i]) && Weighed(c, rows[i], now, decay) == Existing
  }

  ghost predicate AllRestate(rows: seq<Belief>, c: Candidate, live: seq<nat>)
    requires InRange(rows, live)
  {
    forall i: nat :: i in live ==> !Contradicts(c, rows[i])
  }

  ghost predicate AnyNarrower(rows: seq<Belief>, c: Candidate, live: seq<nat>)
    requires InRange(rows, live)
  {
    exists i: nat :: i in live && Contradicts(c, rows[i]) && Narrower(c, rows[i])
  }

  ghost predicate NoneDefends(rows: seq<Belief>, c: Candidate, live: seq<nat>, now: int, decay: Decay) {
    forall i: nat :: i in live ==> !Defends(rows, c, i, now, decay)
  }

  ghost predicate AllDefend(rows: seq<Belief>, c: Candidate, live: seq<nat>, now: int, decay: Decay) {
    forall i: nat :: i in live ==> Defends(rows, c, i, now, decay)
  }

  /** The decision, read off the live rows as a whole. */
  ghost function Resolution(rows: seq<Belief>, c: Candidate, ids: seq<nat>, now: int, decay: Decay): Decision
    requires InRange(rows, ids)
  {
    var live := LiveOf(rows, ids);
    var beaten := Beaten(rows, c, live, now, decay);
    if live == [] then Insert
    else if AllRestate(rows, c, live) then
      if ComputeBeliefStrength(ClaimOf(c, now), now, decay) >= 0.72 then CoexistConditional(SameValue)
      else RejectIncoming(Restatement)
    else if AnyNarrower(rows, c, live) && beaten != [] && ScopePriority(c.scope) < 5 then CoexistConditional(TooBroad)
    else if beaten != [] && NoneDefends(rows, c, live, now, decay) then SupersedeExisting(beaten)
    else if AllDefend(rows, c, live, now, decay) then RejectIncoming(ExistingStronger)
    else CoexistConditional(Conditional)
  }

  function Same(rows: seq<Belief>, c: Candidate, ids: seq<nat>): nat
    requires InRange(rows, ids)
  {
    if ids == [] then 0
    else Same(rows, c, ids[..|ids| - 1]) + if Contradicts(c, rows[ids[|ids| - 1]]) then 0 else 1
  }

  function Stronger(rows: seq<Belief>, c: Candidate, ids: seq<nat>, now: int, decay: Decay): nat
    requires InRange(rows, ids)
  {
    if ids == [] then 0
    else Stronger(rows, c, ids[..|ids| - 1], now, decay) + if Defends(rows, c, ids[|ids| - 1], now, decay) then 1 else 0
  }

  function NarrowerCount(rows: seq<Belief>, c: Candidate, ids: seq<nat>): nat
    requires InRange(rows, ids)
  {
    if ids == [] then 0
    else NarrowerCount(rows, c, ids[..|ids| - 1]) +
         if Contradicts(c, rows[ids[|ids| - 1]]) && Narrower(c, rows[ids[|ids| - 1]]) then 1 else 0
  }

  /* What the counters say about the list. */

  lemma {:induction false} SameMeans(rows: seq<Belief>, c: Candidate, ids: seq<nat>)
    requires InRange(rows, ids)
    ensures Same(rows, c, ids) <= |ids|
    ensures Same(rows, c, ids) == |ids| <==> forall i: nat :: i in ids ==> !Contradicts(c, rows[i])
  {
    if ids == [] {
    } else {
      var before, last := ids[..|ids| - 1], ids[|ids| - 1];
      SameMeans(rows, c, before);
      assert ids == before + [last];
      assert forall i: nat :: i in ids <==> i in before || i == last;
    }
  }

  lemma InOneMore(before: seq<nat>, last: nat, i: nat)
    ensures i in before + [last] <==> i in before || i == last
  {
  }

  lemma {:induction false} AllStronger(rows: seq<Belief>, c: Candidate, ids: seq<nat>, now: int, decay: Decay)
    requires InRange(rows, ids)
    ensures Stronger(rows, c, ids, now, decay) <= |ids|
    ensures Stronger(rows, c, ids, now, decay) == |ids| <==> forall i: nat :: i in ids ==> Defends(rows, c, i, now, decay)
  {
    if ids == [] {
    } else {
      var before, last := ids[..|ids| - 1], ids[|ids| - 1];
      AllStronger(rows, c, before, now, decay);
      assert ids == before + [last];
      if Stronger(rows, c, ids, now, decay) == |ids| {
        forall i: nat | i in ids ensures Defends(rows, c, i, now, decay) {
          InOneMore(before, last, i);
        }
      } else if Stronger(rows, c, before, now, decay) < |before| {
        var i: nat :| i in before && !Defends(rows, c, i, now, decay);
        assert i in ids;
      } else {
        assert last in ids;
      }
    }
  }

  lemma {:induction false} NoneStronger(rows: seq<Belief>, c: Candidate, ids: seq<nat>, now: int, decay: Decay)
    requires InRange(rows, ids)
    ensures Stronger(rows, c, ids, now, decay) == 0 <==> forall i: nat :: i in ids ==> !Defends(rows, c, i, now, decay)
  {
    if ids == [] {
    } else {
      var before, last := ids[..|ids| - 1], ids[|ids| - 1];
      NoneStronger(rows, c, before, now, decay);
      assert ids == before + [last];
      if Stronger(rows, c, ids, now, decay) == 0 {
        forall i: nat | i in ids ensures !Defends(rows, c, i, now, decay) {
          InOneMore(before, last, i);
        }
      } else if Stronger(rows, c, before, now, decay) > 0 {
        var i: nat :| i in before && Defends(rows, c, i, now, decay);
        assert i in ids;
      } else {
        assert last in ids;
      }
    }
  }

  lemma {:induction false} NarrowerMeans(rows: seq<Belief>, c: Candidate, ids: seq<nat>)
    requires InRange(rows, ids)
    ensures NarrowerCount(rows, c, ids) > 0 <==> exists i: nat :: i in ids && Contradicts(c, rows[i]) && Narrower(c, rows[i])
  {
    if ids == [] {
    } else {
      var before, last := ids[..|ids| - 1], ids[|ids| - 1];
      NarrowerMeans(rows, c, before);
      assert ids == before + [last];
      assert forall i: nat :: i in ids <==> i in before || i == last;
    }
  }

  lemma ResolutionByCounts(rows: seq<Belief>, c: Candidate, conflicts: seq<nat>, now: int, decay: Decay)
    requires InRange(rows, conflicts)
    ensures var live := LiveOf(rows, conflicts);
            var beaten := Beaten(rows, c, live, now, decay);
            Resolution(rows, c, conflicts, now, decay) ==
            if |live| == 0 then Insert
            else if Same(rows, c, live) == |live| then
              if ComputeBeliefStrength(ClaimOf(c, now), now, decay) >= 0.72 then CoexistConditional(SameValue)
              else RejectIncoming(Restatement)
            else if NarrowerCount(rows, c, live) > 0 && |beaten| > 0 && ScopePriority(c.scope) < 5 then CoexistConditional(TooBroad)
            else if |beaten| > 0 && Stronger(rows, c, live, now, decay) == 0 then SupersedeExisting(beaten)
            else if Stronger(rows, c, live, now, decay) == |live| then RejectIncoming(ExistingStronger)
            else CoexistConditional(Conditional)
  {
    var live := LiveOf(rows, conflicts);
    SameMeans(rows, c, live);
    AllStronger(rows, c, live, now, decay);
    NoneStronger(rows, c, live, now, decay);
    NarrowerMeans(rows, c, live);
  }

  lemma WeighOne(rows: seq<Belief>, c: Candidate, ids: seq<nat>, k: nat, now: int, decay: Decay)
    requires InRange(rows, ids) && k < |ids|
    ensures var b, v := rows[ids[k]], Weighed(c, rows[ids[k]], now, decay);
            var differs := c.value != b.value;
            && Beaten(rows, c, ids[..k + 1], now, decay) ==
               Beaten(rows, c, ids[..k], now, decay) + (if differs && v == Incoming then [ids[k]] else [])
            && Stronger(rows, c, ids[..k + 1], now, decay) == Stronger(rows, c, ids[..k], now, decay) + (if differs && v == Existing then 1 else 0)
            && Same(rows, c, ids[..k + 1]) == Same(rows, c, ids[..k]) + (if differs then 0 else 1)
            && NarrowerCount(rows, c, ids[..k + 1]) == NarrowerCount(rows, c, ids[..k]) + (if differs && Narrower(c, b) then 1 else 0)
  {
    assert ids[..k + 1][..k] == ids[..k];
  }

  /** One pass over the live rows with counters. */
  method Weigh(rows: seq<Belief>, c: Candidate, activeConflicts: seq<nat>, now: int, decay: Decay)
    returns (supersedeIds: seq<nat>, strongerExistingCount: nat, sameValueCount: nat, narrowerExistingCount: nat)
    requires InRange(rows, activeConflicts)
    ensures supersedeIds == Beaten(rows, c, activeConflicts, now, decay)
    ensures sameValueCount == Same(rows, c, activeConflicts)
    ensures strongerExistingCount == Stronger(rows, c, activeConflicts, now, decay)
    ensures narrowerExistingCount == NarrowerCount(rows, c, activeConflicts)
  {
    supersedeIds, strongerExistingCount, sameValueCount, narrowerExistingCount := [], 0, 0, 0;
    for k := 0 to |activeConflicts|
      invariant supersedeIds == Beaten(rows, c, activeConflicts[..k], now, decay)
      invariant sameValueCount == Same(rows, c, activeConflicts[..k])
      invariant strongerExistingCount == Stronger(rows, c, activeConflicts[..k], now, decay)
      invariant narrowerExistingCount == NarrowerCount(rows, c, activeConflicts[..k])
    {
      var id := activeConflicts[k];
      var existing := rows[id];
      WeighOne(rows, c, activeConflicts, k, now, decay);
      if c.value == existing.value {
        sameValueCount := sameValueCount + 1;
        continue;
      }
      var compare := Weighed(c, existing, now, decay);
      if ScopePriority(existing.claim.scope) > ScopePriority(c.scope) {
        narrowerExistingCount := narrowerExistingCount + 1;
      }
      if compare == Incoming {
        supersedeIds := supersedeIds + [id];
      } else if compare == Existing {
        strongerExistingCount := strongerExistingCount + 1;
      }
    }
    assert activeConflicts[..|activeConflicts|] == activeConflicts;
  }

  /** The decision the way it is computed. */
  method ResolveConflict(rows: seq<Belief>, c: Candidate, conflicts: seq<nat>, now: int, decay: Decay) returns (d: Decision)
    requires InRange(rows, conflicts)
    ensures d == Resolution(rows, c, conflicts, now, decay)
  {
    var activeConflicts := LiveOf(rows, conflicts);
    ResolutionByCounts(rows, c, conflicts, now, decay);
    if |activeConflicts| == 0 {
      return Insert;
    }
    var incomingStrength := ComputeBeliefStrength(ClaimOf(c, now), now, decay);
    var supersedeIds, strongerExistingCount, sameValueCount, narrowerExistingCount := Weigh(rows, c, activeConflicts, now, decay);
    if sameValueCount == |activeConflicts| {
      return if incomingStrength >= 0.72 then CoexistConditional(SameValue) else RejectIncoming(Restatement);
    }
    if narrowerExistingCount > 0 && |supersedeIds| > 0 && ScopePriority(c.scope) < 5 {
      return CoexistConditional(TooBroad);
    }
    if |supersedeIds| > 0 && strongerExistingCount == 0 {
      return SupersedeExisting(supersedeIds);
    }
    if strongerExistingCount == |activeConflicts| {
      return RejectIncoming(ExistingStronger);
    }
    d := CoexistConditional(Conditional);
  }

  /* ---------- the table ---------- */

  ghost function Decided(rows: seq<Belief>, c: Candidate, now: int, decay: Decay): Decision {
    Resolution(rows, c, FindByCanonicalKey(rows, ToCanonicalKey(c), c.project), now, decay)
  }

  function NewRow(c: Candidate, d: Decision, now: int): Belief {
    Belief(c.project, ToCanonicalKey(c), ClaimOf(c, now), c.value, c.validTo,
           if d.SupersedeExisting? && d.ids != [] then Some(d.ids[0]) else None, None,
           if d.Insert? then None else Some(Group(c.subject, c.pred, c.scope)), Active, now, now)
  }

  function Retired(b: Belief, successor: nat, at: int, now: int): Belief {
    b.(status := Superseded, supersededBy := Some(successor), validTo := Some(at), updatedAt := now)
  }

  function WithRetired(rows: seq<Belief>, ids: seq<nat>, successor: nat, at: int, now: int): (r: seq<Belief>)
    ensures |r| == |rows|
    ensures forall i :: 0 <= i < |rows| ==> r[i] == if i in ids then Retired(rows[i], successor, at, now) else rows[i]
  {
    seq(|rows|, i requires 0 <= i < |rows| => if i in ids then Retired(rows[i], successor, at, now) else rows[i])
  }

  /** The table after the decision. */
  function Recorded(rows: seq<Belief>, c: Candidate, d: Decision, now: int): seq<Belief> {
    var row := NewRow(c, d, now);
    match d
    case RejectIncoming(_) => rows
    case SupersedeExisting(ids) => WithRetired(rows, ids, |rows|, row.claim.validFrom, now) + [row]
    case _ => rows + [row]
  }

  ghost function Upserted(rows: seq<Belief>, c: Candidate, now: int, decay: Decay): seq<Belief> {
    Recorded(rows, c, Decided(rows, c, now, decay), now)
  }

  /** The active rows that already carry this claim. */
  function FindActiveEquivalent(rows: seq<Belief>, c: Candidate): (r: seq<nat>)
    ensures forall j: nat :: j in r <==> j < |rows| && Under(rows[j], ToCanonicalKey(c), c.project) && rows[j].status == Active && rows[j].value == c.value
  {
    Equivalents(rows, c, FindByCanonicalKey(rows, ToCanonicalKey(c), c.project))
  }

  function Equivalents(rows: seq<Belief>, c: Candidate, ids: seq<nat>): (r: seq<nat>)
    requires InRange(rows, ids)
    ensures forall j: nat :: j in r <==> j in ids && rows[j].status == Active && rows[j].value == c.value
  {
    if ids == [] then []
    else
      var last := ids[|ids| - 1];
      Equivalents(rows, c, ids[..|ids| - 1]) + if rows[last].status == Active && rows[last].value == c.value then [last] else []
  }

  class BeliefStore {
    const decay: Decay
    var rows: seq<Belief>

    constructor (decay: Decay)
      ensures this.decay == decay && rows == []
    {
      this.decay, rows := decay, [];
    }

    /** `refused` says that the transaction throws, because of missing evidence or a guard; it is then rolled back. */
    method Upsert(candidate: Candidate, now: int, refused: bool) returns (r: Outcome)
      modifies this`rows
      ensures var d := Decided(old(rows), candidate, now, decay);
              && rows == (if refused then old(rows) else Upserted(old(rows), candidate, now, decay))
              && r == (if d.RejectIncoming? then TurnedAway(d.reason) else if refused then Failed else Written(|old(rows)|))
    {
      var conflicts := FindByCanonicalKey(rows, ToCanonicalKey(candidate), candidate.project);
      var decision := ResolveConflict(rows, candidate, conflicts, now, decay);
      if decision.RejectIncoming? {
        return TurnedAway(decision.reason);
      }
      if refused {
        return Failed;
      }
      var id := |rows|;
      var belief := NewRow(candidate, decision, now);
      if decision.SupersedeExisting? {
        RetireRows(decision.ids, id, belief.claim.validFrom, now);
      }
      rows := rows + [belief];
      r := Written(id);
    }

    method RetireRows(ids: seq<nat>, successor: nat, at: int, now: int)
      requires InRange(rows, ids)
      modifies this`rows
      ensures rows == WithRetired(old(rows), ids, successor, at, now)
    {
      for k := 0 to |ids|
        invariant |rows| == |old(rows)|
        invariant forall i :: 0 <= i < |rows| ==> rows[i] == if i in ids[..k] then Retired(old(rows)[i], successor, at, now) else old(rows)[i]
      {
        assert ids[..k + 1] == ids[..k] + [ids[k]];
        rows := rows[ids[k] := rows[ids[k]].(status := Superseded, supersededBy := Some(successor), validTo := Some(at), updatedAt := now)];
      }
      assert ids[..|ids|] == ids;
    }
  }
}
