/** Recording a frame's preference and relationship relations as beliefs, and when doing it twice adds nothing. */
module FrameRelationBeliefs {
  import opened BeliefStore
  import opened BeliefRevision
  import opened BeliefStrength
  import opened Folds
  import opened Options

  datatype Kind = Likes | FriendOf | FamilyOf | RelatedTo | OtherKind(relation: string)

  /** Labels are taken after trimming. */
  datatype Node = Node(id: nat, name: string)

  datatype Relation = Relation(kind: Kind, source: nat, target: nat, confidence: real, validFrom: Option<int>, evidence: Option<nat>)

  datatype Frame = Frame(project: string, nodes: seq<Node>, relations: seq<Relation>, evidence: Option<nat>)

  datatype SkipReason = NotProjected | UnresolvedNode | EmptyLabel | AlreadyRecorded

  datatype WriteResult = WriteResult(written: nat, skipped: seq<(Kind, SkipReason)>, failed: seq<Kind>)

  /** What a pass reads from outside: when events happened, and which claims the store's guards refuse. */
  datatype World = World(occurredAt: map<nat, int>, refuses: Candidate -> bool, now: int, decay: Decay)

  datatype Reading = Skip(reason: SkipReason) | Take(candidate: Candidate)

  /** The last node with the id. */
  function LabelOf(nodes: seq<Node>, id: nat): Option<string> {
    if nodes == [] then None
    else if nodes[|nodes| - 1].id == id then Some(nodes[|nodes| - 1].name)
    else LabelOf(nodes[..|nodes| - 1], id)
  }

  function BeliefPredicate(kind: Kind): Predicate
    requires !kind.OtherKind?
  {
    match kind
    case Likes => Predicate(Preference, "preference.LIKES")
    case FriendOf => Predicate(Plain, "FRIEND_OF")
    case FamilyOf => Predicate(Plain, "FAMILY_OF")
    case RelatedTo => Predicate(Plain, "RELATED_TO")
  }

  /** The relation's own start, else the time of its evidence, else now. */
  function DatedAt(f: Frame, r: Relation, w: World): int {
    var evidence := if r.evidence.Some? then r.evidence else f.evidence;
    if r.validFrom.Some? then r.validFrom.value
    else if evidence.Some? && evidence.value in w.occurredAt then w.occurredAt[evidence.value]
    else w.now
  }

  function Read(f: Frame, r: Relation, w: World): Reading {
    if r.kind.OtherKind? then Skip(NotProjected)
    else
      var subject, target := LabelOf(f.nodes, r.source), LabelOf(f.nodes, r.target);
      if subject.None? || target.None? then Skip(UnresolvedNode)
      else if subject.value == "" || target.value == "" then Skip(EmptyLabel)
      else
        Take(Candidate(f.project, subject.value, BeliefPredicate(r.kind), Project,
                       if r.kind == Likes then None else Some(target.value), target.value, r.confidence, None, LlmInference,
                       Some(DatedAt(f, r, w)), None))
  }

  /* ---------- a pass ---------- */

  ghost function RowsAfterClaim(rows: seq<Belief>, c: Candidate, w: World): seq<Belief> {
    if FindActiveEquivalent(rows, c) != [] || w.refuses(c) then rows else Upserted(rows, c, w.now, w.decay)
  }

  function Readings(f: Frame, w: World): (r: seq<Reading>)
    ensures |r| == |f.relations| && forall k :: 0 <= k < |r| ==> r[k] == Read(f, f.relations[k], w)
  {
    seq(|f.relations|, k requires 0 <= k < |f.relations| => Read(f, f.relations[k], w))
  }

  ghost function RowsAfterReading(rows: seq<Belief>, r: Reading, w: World): seq<Belief> {
    if r.Take? then RowsAfterClaim(rows, r.candidate, w) else rows
  }

  ghost function StepOf(w: World): (seq<Belief>, Reading) -> seq<Belief> {
    (rows: seq<Belief>, r: Reading) => RowsAfterReading(rows, r, w)
  }

  /** The table after the first `n` relations. */
  ghost function RowsAfter(rows: seq<Belief>, rs: seq<Reading>, n: nat, w: World): seq<Belief>
    requires n <= |rs|
  {
    Fold(StepOf(w), rows, rs, n)
  }

  /** What becomes of one claim; none when it is already recorded. */
  ghost function OutcomeOf(rows: seq<Belief>, c: Candidate, w: World): Option<Outcome> {
    if FindActiveEquivalent(rows, c) != [] then None
    else
      var d := Decided(rows, c, w.now, w.decay);
      Some(if d.RejectIncoming? then TurnedAway(d.reason) else if w.refuses(c) then Failed else Written(|rows|))
  }

  function Reported(p: WriteResult, kind: Kind, r: Reading, outcome: Option<Outcome>): WriteResult {
    if r.Skip? then p.(skipped := p.skipped + [(kind, r.reason)])
    else match outcome
         case None => p.(skipped := p.skipped + [(kind, AlreadyRecorded)])
         case Some(Written(_)) => p.(written := p.written + 1)
         case Some(TurnedAway(_)) => p
         case Some(Failed) => p.(failed := p.failed + [kind])
  }

  ghost function ReadingOutcome(rows: seq<Belief>, r: Reading, w: World): Option<Outcome> {
    if r.Take? then OutcomeOf(rows, r.candidate, w) else None
  }

  /** The report over the first `n` relations. */
  ghost function Report(rows: seq<Belief>, f: Frame, n: nat, w: World): WriteResult
    requires n <= |f.relations|
  {
    if n == 0 then WriteResult(0, [], [])
    else
      var r := Readings(f, w)[n - 1];
      Reported(Report(rows, f, n - 1, w), f.relations[n - 1].kind, r,
               ReadingOutcome(RowsAfter(rows, Readings(f, w), n - 1, w), r, w))
  }

  /** Where a pass stands before relation `k`. */
  ghost predicate Reached(start: seq<Belief>, rows: seq<Belief>, p: WriteResult, f: Frame, k: nat, w: World) {
    && k <= |f.relations|
    && rows == RowsAfter(start, Readings(f, w), k, w)
    && p == Report(start, f, k, w)
    && |rows| == |start| + p.written
  }

  lemma OneMoreRelation(start: seq<Belief>, rows: seq<Belief>, p: WriteResult, after: seq<Belief>, q: WriteResult, f: Frame, k: nat, w: World)
    requires k < |f.relations| && Reached(start, rows, p, f, k, w)
    requires after == RowsAfterReading(rows, Read(f, f.relations[k], w), w)
    requires q == Reported(p, f.relations[k].kind, Read(f, f.relations[k], w), ReadingOutcome(rows, Read(f, f.relations[k], w), w))
    requires |after| + p.written == |rows| + q.written
    ensures Reached(start, after, q, f, k + 1, w)
  {
  }

  method ProjectClaim(store: BeliefStore, candidate: Candidate, w: World) returns (outcome: Option<Outcome>)
    requires store.decay == w.decay
    modifies store`rows
    ensures store.rows == RowsAfterClaim(old(store.rows), candidate, w)
    ensures outcome == OutcomeOf(old(store.rows), candidate, w)
  {
    if FindActiveEquivalent(store.rows, candidate) != [] {
      return None;
    }
    var result := store.Upsert(candidate, w.now, w.refuses(candidate));
    outcome := Some(result);
  }

  method ProjectReading(store: BeliefStore, reading: Reading, kind: Kind, w: World, before: WriteResult) returns (p: WriteResult)
    requires store.decay == w.decay
    modifies store`rows
    ensures store.rows == RowsAfterReading(old(store.rows), reading, w)
    ensures p == Reported(before, kind, reading, ReadingOutcome(old(store.rows), reading, w))
    ensures |store.rows| + before.written == |old(store.rows)| + p.written
  {
    p := before;
    if reading.Skip? {
      return p.(skipped := p.skipped + [(kind, reading.reason)]);
    }
    var outcome := ProjectClaim(store, reading.candidate, w);
    match outcome {
      case None => p := p.(skipped := p.skipped + [(kind, AlreadyRecorded)]);
      case Some(Written(_)) => p := p.(written := p.written + 1);
      case Some(TurnedAway(_)) =>
      case Some(Failed) => p := p.(failed := p.failed + [kind]);
    }
  }

  method ProjectFrameRelations(store: BeliefStore, f: Frame, w: World) returns (p: WriteResult)
    requires store.decay == w.decay
    modifies store`rows
    ensures store.rows == RowsAfter(old(store.rows), Readings(f, w), |f.relations|, w)
    ensures p == Report(old(store.rows), f, |f.relations|, w)
    ensures |store.rows| == |old(store.rows)| + p.written
  {
    p := WriteResult(0, [], []);
    for k := 0 to |f.relations|
      invariant Reached(old(store.rows), store.rows, p, f, k, w)
    {
      ghost var rows, before := store.rows, p;
      p := ProjectReading(store, Read(f, f.relations[k], w), f.relations[k].kind, w, p);
      OneMoreRelation(old(store.rows), rows, before, store.rows, p, f, k, w);
    }
  }

  /* ---------- claims a pass has dealt with ---------- */

  /** Trying the claim now would change nothing. */
  ghost predicate Settled(rows: seq<Belief>, c: Candidate, w: World) {
    FindActiveEquivalent(rows, c) != [] || w.refuses(c) || Decided(rows, c, w.now, w.decay).RejectIncoming?
  }

  lemma SettledChangesNothing(rows: seq<Belief>, c: Candidate, w: World)
    requires Settled(rows, c, w)
    ensures RowsAfterClaim(rows, c, w) == rows
  {
  }

  lemma ClaimSettles(rows: seq<Belief>, c: Candidate, w: World)
    ensures Settled(RowsAfterClaim(rows, c, w), c, w)
  {
    if !Settled(rows, c, w) {
      var after := Upserted(rows, c, w.now, w.decay);
      var id: nat := |rows|;
      assert id in FindActiveEquivalent(after, c);
    }
  }

  /* Rows of other claims do not matter. */

  ghost predicate SameUnder(rows: seq<Belief>, more: seq<Belief>, key: Key, project: string) {
    && |rows| <= |more|
    && (forall i: nat :: i < |rows| && Under(rows[i], key, project) ==> more[i] == rows[i])
    && (forall i: nat :: i < |more| && Under(more[i], key, project) ==> i < |rows| && Under(rows[i], key, project))
  }

  lemma {:induction false} SamePlaced(rows: seq<Belief>, more: seq<Belief>, ids: seq<nat>, i: nat)
    requires InRange(rows, ids) && InRange(more, ids) && i < |rows| && i < |more| && more[i] == rows[i]
    requires forall j: nat :: j in ids ==> more[j] == rows[j]
    ensures Placed(more, ids, i) == Placed(rows, ids, i)
  {
    if ids == [] {
    } else {
      var first: nat := ids[0];
      assert first in ids;
      forall j: nat | j in ids[1..] ensures more[j] == rows[j] {
        assert j in ids;
      }
      SamePlaced(rows, more, ids[1..], i);
    }
  }

  lemma {:induction false} SameFound(rows: seq<Belief>, more: seq<Belief>, n: nat, key: Key, project: string)
    requires SameUnder(rows, more, key, project) && n <= |rows|
    ensures FindUpTo(more, n, key, project) == FindUpTo(rows, n, key, project)
  {
    if n == 0 {
    } else {
      SameFound(rows, more, n - 1, key, project);
      FindOneMore(rows, n, key, project);
      FindOneMore(more, n, key, project);
      if Under(rows[n - 1], key, project) {
        SamePlaced(rows, more, FindUpTo(rows, n - 1, key, project), n - 1);
      }
    }
  }

  lemma {:induction false} NothingFoundBeyond(rows: seq<Belief>, more: seq<Belief>, n: nat, key: Key, project: string)
    requires SameUnder(rows, more, key, project) && |rows| <= n <= |more|
    ensures FindUpTo(more, n, key, project) == FindUpTo(rows, |rows|, key, project)
  {
    if n == |rows| {
      SameFound(rows, more, n, key, project);
    } else {
      NothingFoundBeyond(rows, more, n - 1, key, project);
      FindOneMore(more, n, key, project);
    }
  }

  ghost predicate SameAt(rows: seq<Belief>, more: seq<Belief>, ids: seq<nat>) {
    InRange(rows, ids) && InRange(more, ids) && forall k :: 0 <= k < |ids| ==> more[ids[k]] == rows[ids[k]]
  }

  lemma {:induction false} SameLive(rows: seq<Belief>, more: seq<Belief>, ids: seq<nat>)
    requires SameAt(rows, more, ids)
    ensures LiveOf(more, ids) == LiveOf(rows, ids)
  {
    if ids == [] {
    } else {
      SameLive(rows, more, ids[..|ids| - 1]);
    }
  }

  lemma {:induction false} SameBeaten(rows: seq<Belief>, more: seq<Belief>, c: Candidate, ids: seq<nat>, now: int, decay: Decay)
    requires SameAt(rows, more, ids)
    ensures Beaten(more, c, ids, now, decay) == Beaten(rows, c, ids, now, decay)
  {
    if ids == [] {
    } else {
      SameBeaten(rows, more, c, ids[..|ids| - 1], now, decay);
    }
  }

  lemma SameGuards(rows: seq<Belief>, more: seq<Belief>, c: Candidate, live: seq<nat>, now: int, decay: Decay)
    requires InRange(rows, live) && InRange(more, live) && forall i: nat :: i in live ==> more[i] == rows[i]
    ensures AllRestate(more, c, live) == AllRestate(rows, c, live)
    ensures AnyNarrower(more, c, live) == AnyNarrower(rows, c, live)
  {
  }

  lemma SameDefence(rows: seq<Belief>, more: seq<Belief>, c: Candidate, live: seq<nat>, now: int, decay: Decay)
    requires InRange(rows, live) && InRange(more, live) && forall i: nat :: i in live ==> more[i] == rows[i]
    ensures NoneDefends(more, c, live, now, decay) == NoneDefends(rows, c, live, now, decay)
    ensures AllDefend(more, c, live, now, decay) == AllDefend(rows, c, live, now, decay)
  {
    forall i: nat | i in live ensures Defends(more, c, i, now, decay) == Defends(rows, c, i, now, decay) {
    }
  }

  lemma SameResolution(rows: seq<Belief>, more: seq<Belief>, c: Candidate, ids: seq<nat>, now: int, decay: Decay)
    requires SameAt(rows, more, ids)
    ensures Resolution(more, c, ids, now, decay) == Resolution(rows, c, ids, now, decay)
  {
    SameLive(rows, more, ids);
    var live := LiveOf(rows, ids);
    forall i: nat | i in live ensures more[i] == rows[i] {
      assert i in ids;
    }
    SameBeaten(rows, more, c, live, now, decay);
    SameGuards(rows, more, c, live, now, decay);
    SameDefence(rows, more, c, live, now, decay);
  }

  lemma SameDecision(rows: seq<Belief>, more: seq<Belief>, c: Candidate, now: int, decay: Decay)
    requires SameUnder(rows, more, ToCanonicalKey(c), c.project)
    ensures Decided(more, c, now, decay) == Decided(rows, c, now, decay)
  {
    var key := ToCanonicalKey(c);
    NothingFoundBeyond(rows, more, |more|, key, c.project);
    var ids := FindByCanonicalKey(rows, key, c.project);
    forall k | 0 <= k < |ids| ensures more[ids[k]] == rows[ids[k]] {
      var j: nat := ids[k];
      assert j in ids;
    }
    SameResolution(rows, more, c, ids, now, decay);
  }

  lemma OtherClaimsUntouched(rows: seq<Belief>, c: Candidate, d: Candidate, w: World)
    requires ToCanonicalKey(c) != ToCanonicalKey(d)
    ensures SameUnder(rows, RowsAfterClaim(rows, d, w), ToCanonicalKey(c), c.project)
  {
    var more := RowsAfterClaim(rows, d, w);
    if more != rows {
      forall i: nat | i < |rows| ensures more[i] == rows[i] || (!Under(rows[i], ToCanonicalKey(c), c.project) && more[i].key == rows[i].key) {
        RowAfter(rows, d, w.now, w.decay, i);
        OnlyBeatenAreRetired(rows, d, w.now, w.decay, i);
      }
    }
  }

  lemma OtherClaimsKeepSettled(rows: seq<Belief>, c: Candidate, d: Candidate, w: World)
    requires Settled(rows, c, w) && ToCanonicalKey(c) != ToCanonicalKey(d)
    ensures Settled(RowsAfterClaim(rows, d, w), c, w)
  {
    var more := RowsAfterClaim(rows, d, w);
    OtherClaimsUntouched(rows, c, d, w);
    SameDecision(rows, more, c, w.now, w.decay);
    if FindActiveEquivalent(rows, c) != [] {
      var j: nat := FindActiveEquivalent(rows, c)[0];
      assert j in FindActiveEquivalent(rows, c);
      assert j in FindActiveEquivalent(more, c);
    }
  }

  lemma SameClaimKeepsSettled(rows: seq<Belief>, c: Candidate, d: Candidate, w: World)
    requires Settled(rows, c, w)
    requires ToCanonicalKey(c) == ToCanonicalKey(d) && c.project == d.project && c.value == d.value
    ensures Settled(RowsAfterClaim(rows, d, w), c, w)
  {
    var more := RowsAfterClaim(rows, d, w);
    if FindActiveEquivalent(rows, c) != [] {
      var j: nat := FindActiveEquivalent(rows, c)[0];
      assert j in FindActiveEquivalent(rows, c);
      assert j in FindActiveEquivalent(rows, d);
    } else if more != rows {
      var id: nat := |rows|;
      assert id in FindActiveEquivalent(more, c);
    }
  }

  /* ---------- the second pass ---------- */

  ghost predicate Dealt(rows: seq<Belief>, r: Reading, w: World) {
    r.Take? ==> Settled(rows, r.candidate, w)
  }

  /** Two claims with one key and different values. */
  predicate Clash(q: Reading, r: Reading) {
    && q.Take? && r.Take? && ToCanonicalKey(q.candidate) == ToCanonicalKey(r.candidate)
    && !(q.candidate.project == r.candidate.project && q.candidate.value == r.candidate.value)
  }

  ghost predicate Contested(rs: seq<Reading>, q: Reading) {
    exists r :: r in rs && Clash(q, r)
  }

  lemma ReadingDealt(rows: seq<Belief>, r: Reading, w: World)
    ensures Dealt(RowsAfterReading(rows, r, w), r, w)
  {
    if r.Take? {
      ClaimSettles(rows, r.candidate, w);
    }
  }

  lemma DealtStays(rows: seq<Belief>, q: Reading, r: Reading, w: World)
    requires Dealt(rows, q, w) && !Clash(q, r)
    ensures Dealt(RowsAfterReading(rows, r, w), q, w)
  {
    if q.Take? && r.Take? {
      var c, d := q.candidate, r.candidate;
      if ToCanonicalKey(c) == ToCanonicalKey(d) {
        SameClaimKeepsSettled(rows, c, d, w);
      } else {
        OtherClaimsKeepSettled(rows, c, d, w);
      }
    }
  }

  /** A reading leaves the table alone when it is dealt with, and lengthens it by one row when it is not. */
  lemma ReadingWritesUnlessDealt(rows: seq<Belief>, r: Reading, w: World)
    ensures var after := RowsAfterReading(rows, r, w);
            if Dealt(rows, r, w) then after == rows else |after| == |rows| + 1
  {
    if r.Take? && Dealt(rows, r, w) {
      SettledChangesNothing(rows, r.candidate, w);
    }
  }

  ghost function DealtOf(w: World): (seq<Belief>, Reading) -> bool {
    (rows: seq<Belief>, r: Reading) => Dealt(rows, r, w)
  }

  lemma PassFinishes(rs: seq<Reading>, w: World)
    ensures Finishes(StepOf(w), DealtOf(w), rs)
  {
    forall rows, r | r in rs ensures DealtOf(w)(StepOf(w)(rows, r), r) {
      ReadingDealt(rows, r, w);
    }
  }

  lemma PassKeeps(rs: seq<Reading>, q: Reading, w: World)
    requires !Contested(rs, q)
    ensures Keeps(StepOf(w), DealtOf(w), rs, q)
  {
    forall rows, r | r in rs && DealtOf(w)(rows, q) ensures DealtOf(w)(StepOf(w)(rows, r), q) {
      assert !Clash(q, r);
      DealtStays(rows, q, r, w);
    }
  }

  lemma PassWritesUnlessDealt(w: World)
    ensures WritesUnlessDone(StepOf(w), DealtOf(w), (rows: seq<Belief>) => |rows|)
  {
    forall rows, r
      ensures if DealtOf(w)(rows, r) then StepOf(w)(rows, r) == rows else |StepOf(w)(rows, r)| > |rows|
    {
      ReadingWritesUnlessDealt(rows, r, w);
    }
  }

  /** A pass over any table changes nothing exactly when every claim is recorded, refused or rejected there. */
  lemma PassRestsIff(rows: seq<Belief>, rs: seq<Reading>, w: World)
    ensures RowsAfter(rows, rs, |rs|, w) == rows <==> forall k :: 0 <= k < |rs| ==> Dealt(rows, rs[k], w)
  {
    PassWritesUnlessDealt(w);
    FoldRestsIff(StepOf(w), DealtOf(w), (t: seq<Belief>) => |t|, rows, rs, |rs|);
    assert forall k :: 0 <= k < |rs| ==> DealtOf(w)(rows, rs[k]) == Dealt(rows, rs[k], w);
  }

  /** A pass leaves every uncontested claim dealt with, wherever it stands in the frame. */
  lemma UncontestedIsDealt(rows: seq<Belief>, rs: seq<Reading>, k: nat, w: World)
    requires k < |rs| && !Contested(rs, rs[k])
    ensures Dealt(RowsAfter(rows, rs, |rs|, w), rs[k], w)
  {
    PassFinishes(rs, w);
    PassKeeps(rs, rs[k], w);
    FoldFinishes(StepOf(w), DealtOf(w), rows, rs, |rs|, k);
  }

  /** Projecting a frame a second time at the same clock changes nothing exactly when the first pass has left each of
      its contested claims recorded, refused or rejected.  The other claims never matter. */
  lemma SecondPassRestsIff(rows: seq<Belief>, f: Frame, w: World)
    ensures var rs := Readings(f, w);
            var once := RowsAfter(rows, rs, |rs|, w);
            RowsAfter(once, rs, |rs|, w) == once <==>
            forall k :: 0 <= k < |rs| && Contested(rs, rs[k]) ==> Dealt(once, rs[k], w)
  {
    var rs := Readings(f, w);
    var once := RowsAfter(rows, rs, |rs|, w);
    PassRestsIff(once, rs, w);
    forall k | 0 <= k < |rs| && !Contested(rs, rs[k]) ensures Dealt(once, rs[k], w) {
      UncontestedIsDealt(rows, rs, k, w);
    }
  }

  /** The frame names no two different things one subject likes. */
  ghost predicate OneLikePerSubject(f: Frame) {
    forall r, s :: r in f.relations && s in f.relations && r.kind == Likes && s.kind == Likes
                   && LabelOf(f.nodes, r.source) == LabelOf(f.nodes, s.source) ==>
                   LabelOf(f.nodes, r.target) == LabelOf(f.nodes, s.target)
  }

  /** Two relations clash exactly when both are likings of one subject, read in full, with different things liked: every
      other claim carries its value in its key. */
  lemma ClashIsTwoLikings(f: Frame, r: Relation, s: Relation, w: World)
    ensures Clash(Read(f, r, w), Read(f, s, w)) <==>
            && Read(f, r, w).Take? && Read(f, s, w).Take? && r.kind == Likes && s.kind == Likes
            && LabelOf(f.nodes, r.source) == LabelOf(f.nodes, s.source)
            && LabelOf(f.nodes, r.target) != LabelOf(f.nodes, s.target)
  {
    var q, p := Read(f, r, w), Read(f, s, w);
    if q.Take? && p.Take? {
      assert q.candidate.pred == BeliefPredicate(r.kind) && p.candidate.pred == BeliefPredicate(s.kind);
    }
  }

  /** So a frame without such a pair is idempotent, whatever became of its claims the first time: inserted,
      superseding, coexisting, turned away or failed. */
  lemma SecondPassWritesNothing(rows: seq<Belief>, f: Frame, w: World)
    requires OneLikePerSubject(f)
    ensures var once := RowsAfter(rows, Readings(f, w), |f.relations|, w);
            RowsAfter(once, Readings(f, w), |f.relations|, w) == once
  {
    var rs := Readings(f, w);
    forall k | 0 <= k < |rs| ensures !Contested(rs, rs[k]) {
      forall r | r in rs ensures !Clash(rs[k], r) {
        var l :| 0 <= l < |rs| && rs[l] == r;
        ClashIsTwoLikings(f, f.relations[k], f.relations[l], w);
        assert f.relations[k] in f.relations && f.relations[l] in f.relations;
      }
    }
    SecondPassRestsIff(rows, f, w);
  }

  /* ---------- a frame whose second pass does write ---------- */

  const LIKING := Predicate(Preference, "preference.LIKES")

  function Liking(value: string, at: int): Candidate {
    Candidate("p", "s", LIKING, Project, None, value, 0.8, None, LlmInference, Some(at), None)
  }

  /** One subject likes one thing, then another. */
  const FICKLE := Frame("p", [Node(0, "s"), Node(1, "a"), Node(2, "b")],
                        [Relation(Likes, 0, 1, 0.8, Some(1), None), Relation(Likes, 0, 2, 0.8, Some(2), None)], None)

  const FLAT := World(map[], (c: Candidate) => false, 2, (x: real) => 1.0)

  lemma FickleReadings()
    ensures Readings(FICKLE, FLAT) == [Take(Liking("a", 1)), Take(Liking("b", 2))]
  {
    assert LabelOf(FICKLE.nodes[..2], 0) == LabelOf(FICKLE.nodes[..2][..1], 0);
    assert LabelOf(FICKLE.nodes[..2], 1) == Some("a");
    assert LabelOf(FICKLE.nodes, 0) == Some("s");
    assert LabelOf(FICKLE.nodes, 1) == Some("a");
    assert LabelOf(FICKLE.nodes, 2) == Some("b");
  }

  lemma TwoSteps(rows: seq<Belief>, r: Reading, s: Reading, w: World)
    ensures RowsAfter(rows, [r, s], 2, w) == RowsAfterReading(RowsAfterReading(rows, r, w), s, w)
  {
    assert RowsAfter(rows, [r, s], 1, w) == RowsAfterReading(RowsAfter(rows, [r, s], 0, w), r, w);
  }

  /** A claim that ties with a live contradiction is written beside it. */
  lemma TieIsWritten(rows: seq<Belief>, c: Candidate, now: int, decay: Decay, i: nat)
    requires Rival(rows, c, i) && Contradicts(c, rows[i]) && Weighed(c, rows[i], now, decay) == Tie
    ensures !Decided(rows, c, now, decay).RejectIncoming?
  {
    var live := LiveOf(rows, FindByCanonicalKey(rows, ToCanonicalKey(c), c.project));
    RivalsAreLive(rows, c);
    assert i in live;
    assert !Defends(rows, c, i, now, decay);
  }

  lemma NoEquivalent(rows: seq<Belief>, c: Candidate)
    requires forall j: nat :: j < |rows| ==> rows[j].status != Active || rows[j].value != c.value
    ensures FindActiveEquivalent(rows, c) == []
  {
    HasElement(FindActiveEquivalent(rows, c));
  }

  lemma HasElement(s: seq<nat>)
    ensures s == [] || exists j: nat :: j in s
  {
    if s != [] {
      var j: nat := s[0];
      assert j in s;
    }
  }

  /** The first liking is inserted. */
  lemma FirstLiking()
    ensures RowsAfterClaim([], Liking("a", 1), FLAT) == [NewRow(Liking("a", 1), Insert, 2)]
  {
  }

  /** The second, newer, supersedes it. */
  lemma SecondLiking()
    ensures var more := RowsAfterClaim([NewRow(Liking("a", 1), Insert, 2)], Liking("b", 2), FLAT);
            && |more| == 2 && more[0].status == Superseded
            && more[1].status == Active && more[1].value == "b" && Under(more[1], ToCanonicalKey(Liking("b", 2)), "p")
            && more[1].claim == ClaimOf(Liking("b", 2), 2)
  {
    var rows, b := [NewRow(Liking("a", 1), Insert, 2)], Liking("b", 2);
    NoEquivalent(rows, b);
    assert Rival(rows, b, 0) && Contradicts(b, rows[0]);
    NewestPreferenceWins(rows, b, 2, FLAT.decay);
  }

  lemma OlderLikingTies()
    ensures CompareBeliefs(ClaimOf(Liking("a", 1), 2), ClaimOf(Liking("b", 2), 2), 2, FLAT.decay) == Tie
  {
  }

  /** Trying the older liking puts it beside a live row of the newer one, unless it is recorded. */
  lemma OlderLikingIsAdded(rows: seq<Belief>, i: nat)
    requires forall j: nat :: j < |rows| ==> rows[j].status != Active || rows[j].value != "a"
    requires i < |rows| && rows[i].status == Active && rows[i].value == "b" && Under(rows[i], ToCanonicalKey(Liking("b", 2)), "p")
    requires rows[i].claim == ClaimOf(Liking("b", 2), 2)
    ensures var more := RowsAfterClaim(rows, Liking("a", 1), FLAT);
            && |more| == |rows| + 1 && more[i] == rows[i]
            && more[|rows|].status == Active && more[|rows|].value == "a"
            && Under(more[|rows|], ToCanonicalKey(Liking("a", 1)), "p")
  {
    var a := Liking("a", 1);
    NoEquivalent(rows, a);
    OlderLikingTies();
    assert Rival(rows, a, i) && Contradicts(a, rows[i]);
    TieIsWritten(rows, a, 2, FLAT.decay, i);
    RowAfter(rows, a, 2, FLAT.decay, i);
    OnlyBeatenAreRetired(rows, a, 2, FLAT.decay, i);
  }

  lemma SecondLikingAgain(rows: seq<Belief>)
    requires |rows| == 3 && rows[1].status == Active && rows[1].value == "b" && Under(rows[1], ToCanonicalKey(Liking("b", 2)), "p")
    ensures RowsAfterClaim(rows, Liking("b", 2), FLAT) == rows
  {
    var one: nat := 1;
    assert one in FindActiveEquivalent(rows, Liking("b", 2));
  }

  lemma FickleLikesTwo()
    ensures !OneLikePerSubject(FICKLE) && Decays(FLAT.decay)
  {
    FickleReadings();
    var r, s := FICKLE.relations[0], FICKLE.relations[1];
    assert r in FICKLE.relations && s in FICKLE.relations;
    assert LabelOf(FICKLE.nodes, r.target) != LabelOf(FICKLE.nodes, s.target) by {
      assert Read(FICKLE, r, FLAT) == Readings(FICKLE, FLAT)[0];
      assert Read(FICKLE, s, FLAT) == Readings(FICKLE, FLAT)[1];
    }
  }

  lemma OlderThenNewer() returns (once: seq<Belief>)
    ensures once == RowsAfter([], [Take(Liking("a", 1)), Take(Liking("b", 2))], 2, FLAT)
    ensures |once| == 2 && once[0].status == Superseded
    ensures once[1].status == Active && once[1].value == "b" && Under(once[1], ToCanonicalKey(Liking("b", 2)), "p")
    ensures once[1].claim == ClaimOf(Liking("b", 2), 2)
  {
    TwoSteps([], Take(Liking("a", 1)), Take(Liking("b", 2)), FLAT);
    FirstLiking();
    SecondLiking();
    once := RowsAfterClaim(RowsAfterClaim([], Liking("a", 1), FLAT), Liking("b", 2), FLAT);
  }

  lemma OlderComesBack(once: seq<Belief>)
    requires |once| == 2 && once[0].status == Superseded
    requires once[1].status == Active && once[1].value == "b" && Under(once[1], ToCanonicalKey(Liking("b", 2)), "p")
    requires once[1].claim == ClaimOf(Liking("b", 2), 2)
    ensures |RowsAfter(once, [Take(Liking("a", 1)), Take(Liking("b", 2))], 2, FLAT)| == 3
  {
    TwoSteps(once, Take(Liking("a", 1)), Take(Liking("b", 2)), FLAT);
    OlderLikingIsAdded(once, 1);
    SecondLikingAgain(RowsAfterClaim(once, Liking("a", 1), FLAT));
  }

  /** A second pass can bring back what the first one superseded. */
  lemma FickleFrameIsWrittenAgain()
    ensures !OneLikePerSubject(FICKLE) && Decays(FLAT.decay)
    ensures var rs := Readings(FICKLE, FLAT);
            |rs| == 2 && |RowsAfter([], rs, 2, FLAT)| == 2 && |RowsAfter(RowsAfter([], rs, 2, FLAT), rs, 2, FLAT)| == 3
  {
    FickleLikesTwo();
    FickleReadings();
    var once := OlderThenNewer();
    OlderComesBack(once);
  }

  /** The same two likings, the newer first. */
  const SETTLED_FRAME := FICKLE.(relations := [FICKLE.relations[1], FICKLE.relations[0]])

  lemma SettledReadings()
    ensures Readings(SETTLED_FRAME, FLAT) == [Take(Liking("b", 2)), Take(Liking("a", 1))]
  {
    FickleReadings();
    var r, s := FICKLE.relations[0], FICKLE.relations[1];
    assert Read(FICKLE, r, FLAT) == Readings(FICKLE, FLAT)[0] && Read(FICKLE, s, FLAT) == Readings(FICKLE, FLAT)[1];
    assert Read(SETTLED_FRAME, s, FLAT) == Read(FICKLE, s, FLAT) && Read(SETTLED_FRAME, r, FLAT) == Read(FICKLE, r, FLAT);
  }

  lemma BothRecorded(rows: seq<Belief>)
    requires |rows| == 2 && rows[0] == NewRow(Liking("b", 2), Insert, 2)
    requires rows[1].status == Active && rows[1].value == "a" && Under(rows[1], ToCanonicalKey(Liking("a", 1)), "p")
    ensures RowsAfter(rows, [Take(Liking("b", 2)), Take(Liking("a", 1))], 2, FLAT) == rows
  {
    var zero: nat, one: nat := 0, 1;
    assert one in FindActiveEquivalent(rows, Liking("a", 1));
    assert zero in FindActiveEquivalent(rows, Liking("b", 2));
    TwoSteps(rows, Take(Liking("b", 2)), Take(Liking("a", 1)), FLAT);
  }

  lemma NewerThenOlder() returns (once: seq<Belief>)
    ensures once == RowsAfter([], [Take(Liking("b", 2)), Take(Liking("a", 1))], 2, FLAT) && |once| == 2
    ensures RowsAfter(once, [Take(Liking("b", 2)), Take(Liking("a", 1))], 2, FLAT) == once
  {
    TwoSteps([], Take(Liking("b", 2)), Take(Liking("a", 1)), FLAT);
    NewerLikingFirst();
    OlderLikingIsAdded([NewRow(Liking("b", 2), Insert, 2)], 0);
    once := RowsAfterClaim([NewRow(Liking("b", 2), Insert, 2)], Liking("a", 1), FLAT);
    BothRecorded(once);
  }

  lemma NewerLikingFirst()
    ensures RowsAfterClaim([], Liking("b", 2), FLAT) == [NewRow(Liking("b", 2), Insert, 2)]
  {
  }

  lemma SettledFrameLikesTwo()
    ensures !OneLikePerSubject(SETTLED_FRAME)
  {
    FickleLikesTwo();
    forall r ensures r in SETTLED_FRAME.relations <==> r in FICKLE.relations {
    }
  }

  /** Two likings of one subject need not be written again: in this order the second pass changes nothing. */
  lemma ContestedFrameCanRest()
    ensures !OneLikePerSubject(SETTLED_FRAME)
    ensures var rs := Readings(SETTLED_FRAME, FLAT);
            |rs| == 2 && |RowsAfter([], rs, 2, FLAT)| == 2
            && RowsAfter(RowsAfter([], rs, 2, FLAT), rs, 2, FLAT) == RowsAfter([], rs, 2, FLAT)
  {
    SettledFrameLikesTwo();
    SettledReadings();
    var once := NewerThenOlder();
  }
}
