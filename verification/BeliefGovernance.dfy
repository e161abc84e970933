/** Governed beliefs: which belief is current under a key, what it replaced, and the full record of how it
    got there.  The service updates four tables; `Applied` says what one call makes of them. */
module BeliefGovernance {
  import opened Options

  type Id = nat

  datatype Ownership = User | Project | System

  datatype BeliefType = Preference | Goal | Boundary | Decision | Fact | Observation

  datatype Status = Active | Weak | NeedsConfirmation | PossibleConflict | Superseded | Rejected

  datatype Relation = Assert | Reinforce | Correct | Contradict

  datatype EvidenceType = Supports | Contradicts

  datatype EvidenceRecord = EvidenceRecord(eventId: Id, projectId: Option<string>, role: Option<string>)

  datatype Belief = Belief(beliefId: Id, projectId: Option<string>, ownership: Ownership, beliefType: BeliefType,
                           key: string, statement: string, status: Status, confidence: real, version: nat,
                           validFrom: int, validTo: Option<int>, supersedes: Option<Id>, supersededBy: Option<Id>,
                           createdAt: int, updatedAt: int)

  datatype EvidenceRow = EvidenceRow(role: string, createdAt: int)

  datatype VersionRow = VersionRow(snapshot: Belief, reason: string, eventId: Id, createdAt: int)

  datatype ConflictKind = CorrectsResolved | ContradictsPending

  datatype ConflictRow = ConflictRow(projectId: Option<string>, prior: Id, proposed: Id, kind: ConflictKind,
                                     reason: Option<string>, evidence: seq<Id>, createdAt: int)

  datatype Tables = Tables(beliefs: map<Id, Belief>, evidence: map<(Id, Id, EvidenceType), EvidenceRow>,
                           versions: map<(Id, nat), VersionRow>, conflicts: map<Id, ConflictRow>)

  datatype Input = Input(projectId: Option<string>, ownership: Ownership, beliefType: BeliefType, key: string,
                         statement: string, evidence: seq<Id>, relation: Option<Relation>,
                         confidence: Option<real>, reason: Option<string>)

  datatype Error =
    | KeyAndStatementRequired
    | MissingEvidence
    | UnknownEvidence
    | ProjectBoundaryViolation
    | UserEvidenceRequired
    | ConstraintViolation

  datatype Result = Ok(belief: Belief) | Err(error: Error)

  /** The string rules and the evidence lookup the service is built with. */
  datatype Env = Env(normalizeKey: string -> string, trim: string -> string, normalizeStatement: string -> string,
                     findEvidence: Id -> Option<EvidenceRecord>)

  /** Normalising a key that is already normalised changes nothing. */
  ghost predicate KeysSettle(env: Env) {
    forall k :: env.normalizeKey(env.normalizeKey(k)) == env.normalizeKey(k)
  }

  /* ---------- one call ---------- */

  predicate MatchesScope(requested: Option<string>, actual: Option<string>) {
    requested.None? ||
    (match actual case None => "" case Some(p) => p) == requested.value
  }

  function RoleOf(e: EvidenceRecord): string {
    match e.role case None => "unknown" case Some(r) => r
  }

  /** The checks in front of every write, in the order the service makes them. */
  function Refusal(env: Env, input: Input): Option<Error> {
    if env.normalizeKey(input.key) == "" || env.trim(input.statement) == "" then Some(KeyAndStatementRequired)
    else if input.evidence == [] then Some(MissingEvidence)
    else if exists e :: e in input.evidence && env.findEvidence(e).None? then Some(UnknownEvidence)
    else if exists e :: e in input.evidence && !MatchesScope(input.projectId, env.findEvidence(e).value.projectId) then
      Some(ProjectBoundaryViolation)
    else if input.ownership == User && !exists e :: e in input.evidence && env.findEvidence(e).value.role == Some("user") then
      Some(UserEvidenceRequired)
    else None
  }

  function Clamp(x: real): real {
    if x < 0.0 then 0.0 else if x > 1.0 then 1.0 else x
  }

  function Max(x: real, y: real): real {
    if x < y then y else x
  }

  predicate Under(b: Belief, project: Option<string>, key: string) {
    b.key == key && b.projectId == project
  }

  predicate IsCurrent(t: Tables, project: Option<string>, key: string, id: Id) {
    && id in t.beliefs && Under(t.beliefs[id], project, key) && t.beliefs[id].status == Active
    && forall i | i in t.beliefs && Under(t.beliefs[i], project, key) && t.beliefs[i].status == Active ::
         t.beliefs[i].updatedAt <= t.beliefs[id].updatedAt
  }

  predicate NoneCurrent(t: Tables, project: Option<string>, key: string) {
    forall id | id in t.beliefs :: !(Under(t.beliefs[id], project, key) && t.beliefs[id].status == Active)
  }

  /** The evidence rows after `INSERT OR IGNORE` of every item. */
  function WithEvidence(env: Env, rows: map<(Id, Id, EvidenceType), EvidenceRow>, id: Id, evidence: seq<Id>,
                        kind: EvidenceType, now: int): map<(Id, Id, EvidenceType), EvidenceRow>
    requires forall e | e in evidence :: env.findEvidence(e).Some?
    decreases |evidence|
  {
    if evidence == [] then rows
    else
      var last := evidence[|evidence| - 1];
      var before := WithEvidence(env, rows, id, evidence[..|evidence| - 1], kind, now);
      if (id, last, kind) in before then before
      else before[(id, last, kind) := EvidenceRow(RoleOf(env.findEvidence(last).value), now)]
  }

  function RelationOf(input: Input): Relation {
    match input.relation case None => Assert case Some(r) => r
  }

  function RelationName(r: Relation): string {
    match r case Assert => "assert" case Reinforce => "reinforce" case Correct => "correct" case Contradict => "contradict"
  }

  function Reinforced(env: Env, t: Tables, input: Input, now: int, id: Id): (Tables, Result)
    requires Refusal(env, input).None? && id in t.beliefs
  {
    var b := t.beliefs[id];
    var floor := match input.confidence case None => 0.0 case Some(c) => c;
    var next := b.(confidence := Clamp(Max(b.confidence, floor) + 0.03), version := b.version + 1, updatedAt := now);
    if (id, next.version) in t.versions then (t, Err(ConstraintViolation))
    else
      var reason := match input.reason case None => "reinforced" case Some(s) => s;
      (Tables(t.beliefs[id := next],
              WithEvidence(env, t.evidence, id, input.evidence, Supports, now),
              t.versions[(id, next.version) := VersionRow(next, reason, input.evidence[0], now)],
              t.conflicts),
       Ok(next))
  }

  function Inserted(env: Env, t: Tables, input: Input, now: int, id: Id, conflictId: Id, current: Option<Id>): (Tables, Result)
    requires Refusal(env, input).None? && (current.Some? ==> current.value in t.beliefs)
  {
    var relation := RelationOf(input);
    var corrects := current.Some? && relation == Correct;
    var confidence := match input.confidence case None => (if input.ownership == User then 0.86 else 0.72) case Some(c) => c;
    var b := Belief(id, input.projectId, input.ownership, input.beliefType, env.normalizeKey(input.key),
                    env.trim(input.statement), if current.Some? && !corrects then PossibleConflict else Active,
                    Clamp(confidence), 1, now, None, if corrects then current else None, None, now, now);
    if id in t.beliefs || (id, 1) in t.versions || (current.Some? && conflictId in t.conflicts) then
      (t, Err(ConstraintViolation))
    else
      var kept := if corrects
                  then t.beliefs[current.value := t.beliefs[current.value].(status := Superseded, validTo := Some(now),
                                                                           supersededBy := Some(id), updatedAt := now)]
                  else t.beliefs;
      var reason := match input.reason case None => RelationName(relation) case Some(s) => s;
      (Tables(kept[id := b],
              WithEvidence(env, t.evidence, id, input.evidence, if relation == Contradict then Contradicts else Supports, now),
              t.versions[(id, 1) := VersionRow(b, reason, input.evidence[0], now)],
              if current.None? then t.conflicts
              else t.conflicts[conflictId := ConflictRow(input.projectId, current.value, id,
                                                         if corrects then CorrectsResolved else ContradictsPending,
                                                         input.reason, input.evidence, now)]),
       Ok(b))
  }

  /** The branch a call takes once its current belief is known. */
  function Applied(env: Env, t: Tables, input: Input, now: int, id: Id, conflictId: Id, current: Option<Id>): (Tables, Result)
    requires current.Some? ==> current.value in t.beliefs
  {
    var refusal := Refusal(env, input);
    if refusal.Some? then (t, Err(refusal.value))
    else
      var same := current.Some? &&
                  env.normalizeStatement(t.beliefs[current.value].statement) == env.normalizeStatement(env.trim(input.statement));
      if current.Some? && (RelationOf(input) == Reinforce || (RelationOf(input) == Assert && same))
      then Reinforced(env, t, input, now, current.value)
      else Inserted(env, t, input, now, id, conflictId, current)
  }

  ghost predicate FoundCurrent(env: Env, t: Tables, input: Input, current: Option<Id>) {
    var key := env.normalizeKey(env.normalizeKey(input.key));
    match current
    case Some(id) => IsCurrent(t, input.projectId, key, id)
    case None => NoneCurrent(t, input.projectId, key)
  }

  /* ---------- the service ---------- */

  class BeliefGovernanceService {
    const env: Env
    var beliefs: map<Id, Belief>
    var evidence: map<(Id, Id, EvidenceType), EvidenceRow>
    var versions: map<(Id, nat), VersionRow>
    var conflicts: map<Id, ConflictRow>

    ghost function Contents(): Tables
      reads this
    {
      Tables(beliefs, evidence, versions, conflicts)
    }

    constructor (env: Env)
      ensures Contents() == Tables(map[], map[], map[], map[]) && this.env == env
    {
      this.env := env;
      beliefs, evidence, versions, conflicts := map[], map[], map[], map[];
    }

    /** The row that `getCurrent` puts first. */
    method GetCurrent(project: Option<string>, canonicalKey: string) returns (current: Option<Id>)
      ensures match current
              case Some(id) => IsCurrent(Contents(), project, env.normalizeKey(canonicalKey), id)
              case None => NoneCurrent(Contents(), project, env.normalizeKey(canonicalKey))
    {
      var key := env.normalizeKey(canonicalKey);
      var rows := set id | id in beliefs && Under(beliefs[id], project, key) && beliefs[id].status == Active;
      current := None;
      ghost var all, seen: set<Id> := rows, {};
      while rows != {}
        invariant rows !! seen
        invariant rows + seen == all
        invariant match current
                  case None => seen == {}
                  case Some(id) => id in seen && forall i | i in seen :: beliefs[i].updatedAt <= beliefs[id].updatedAt
        decreases rows
      {
        var id :| id in rows;
        rows := rows - {id};
        seen := seen + {id};
        if current.None? || beliefs[current.value].updatedAt < beliefs[id].updatedAt {
          current := Some(id);
        }
      }
      forall id | id in beliefs && Under(beliefs[id], project, key) && beliefs[id].status == Active
        ensures id in seen
      {
        assert id in all;
      }
    }

    method InsertEvidence(id: Id, items: seq<Id>, kind: EvidenceType, now: int)
      requires forall e | e in items :: env.findEvidence(e).Some?
      modifies this`evidence
      ensures evidence == WithEvidence(env, old(evidence), id, items, kind, now)
    {
      for i := 0 to |items|
        invariant evidence == WithEvidence(env, old(evidence), id, items[..i], kind, now)
      {
        var e := items[i];
        assert items[..i + 1][..i] == items[..i];
        if (id, e, kind) !in evidence {
          evidence := evidence[(id, e, kind) := EvidenceRow(RoleOf(env.findEvidence(e).value), now)];
        }
      }
      assert items[..|items|] == items;
    }

    method InsertVersion(id: Id, version: nat, reason: string, eventId: Id, now: int)
      requires id in beliefs
      modifies this`versions
      ensures versions == old(versions)[(id, version) := VersionRow(beliefs[id], reason, eventId, now)]
    {
      versions := versions[(id, version) := VersionRow(beliefs[id], reason, eventId, now)];
    }

    method ReinforceBelief(id: Id, input: Input, now: int) returns (r: Result)
      requires Refusal(env, input).None? && id in beliefs
      modifies this
      ensures (Contents(), r) == Reinforced(env, old(Contents()), input, now, id)
    {
      var b := beliefs[id];
      var floor := match input.confidence case None => 0.0 case Some(c) => c;
      if (id, b.version + 1) in versions {
        return Err(ConstraintViolation);
      }
      var next := b.(confidence := Clamp(Max(b.confidence, floor) + 0.03), version := b.version + 1, updatedAt := now);
      beliefs := beliefs[id := next];
      InsertEvidence(id, input.evidence, Supports, now);
      InsertVersion(id, next.version, match input.reason case None => "reinforced" case Some(s) => s, input.evidence[0], now);
      r := Ok(beliefs[id]);
    }

    /** `id` and `conflictId` are the random identifiers drawn by the call. */
    method Apply(input: Input, now: int, id: Id, conflictId: Id) returns (r: Result, ghost current: Option<Id>)
      modifies this
      ensures current.Some? ==> current.value in old(Contents()).beliefs
      ensures Refusal(env, input).None? ==> FoundCurrent(env, old(Contents()), input, current)
      ensures (Contents(), r) == Applied(env, old(Contents()), input, now, id, conflictId, current)
    {
      current := None;
      var refusal := Refusal(env, input);
      if refusal.Some? {
        return Err(refusal.value), None;
      }
      var key, statement := env.normalizeKey(input.key), env.trim(input.statement);
      var relation := RelationOf(input);
      var found := GetCurrent(input.projectId, key);
      current := found;
      if found.Some? && (relation == Reinforce || (relation == Assert &&
           env.normalizeStatement(beliefs[found.value].statement) == env.normalizeStatement(statement))) {
        r := ReinforceBelief(found.value, input, now);
        return;
      }
      if id in beliefs || (id, 1) in versions || (found.Some? && conflictId in conflicts) {
        return Err(ConstraintViolation), current;
      }
      var corrects := found.Some? && relation == Correct;
      if corrects {
        var prior := beliefs[found.value];
        beliefs := beliefs[found.value := prior.(status := Superseded, validTo := Some(now),
                                                 supersededBy := Some(id), updatedAt := now)];
      }
      var confidence := match input.confidence case None => (if input.ownership == User then 0.86 else 0.72) case Some(c) => c;
      beliefs := beliefs[id := Belief(id, input.projectId, input.ownership, input.beliefType, key, statement,
                                      if found.Some? && !corrects then PossibleConflict else Active, Clamp(confidence), 1,
                                      now, None, if corrects then found else None, None, now, now)];
      InsertEvidence(id, input.evidence, if relation == Contradict then Contradicts else Supports, now);
      InsertVersion(id, 1, match input.reason case None => RelationName(relation) case Some(s) => s, input.evidence[0], now);
      if found.Some? {
        conflicts := conflicts[conflictId := ConflictRow(input.projectId, found.value, id,
                                                         if corrects then CorrectsResolved else ContradictsPending,
                                                         input.reason, input.evidence, now)];
      }
      r := Ok(beliefs[id]);
    }
  }

  /* ---------- what every call keeps ---------- */

  ghost predicate IsChain(t: Tables, project: Option<string>, key: string, chain: seq<Id>) {
    && chain != []
    && (forall i | 0 <= i < |chain| :: chain[i] in t.beliefs && Under(t.beliefs[chain[i]], project, key))
    && (forall i, j | 0 <= i < j < |chain| :: chain[i] != chain[j])
    && (forall id | id in t.beliefs && Under(t.beliefs[id], project, key) && t.beliefs[id].status != PossibleConflict :: id in chain)
    && t.beliefs[chain[0]].supersedes == None
    && t.beliefs[chain[|chain| - 1]].status == Active
    && t.beliefs[chain[|chain| - 1]].supersededBy == None && t.beliefs[chain[|chain| - 1]].validTo == None
    && forall i | 0 <= i < |chain| - 1 :: Handover(t.beliefs[chain[i]], t.beliefs[chain[i + 1]])
  }

  /** Forward and backward links agree, and the validity of one ends where that of the next begins. */
  predicate Handover(older: Belief, newer: Belief) {
    && older.status == Superseded
    && older.supersededBy == Some(newer.beliefId) && newer.supersedes == Some(older.beliefId)
    && older.validTo == Some(newer.validFrom)
  }

  ghost predicate HasChain(t: Tables, project: Option<string>, key: string) {
    exists chain :: IsChain(t, project, key, chain)
  }

  ghost predicate ChainsExist(t: Tables) {
    forall id {:trigger HasChain(t, t.beliefs[id].projectId, t.beliefs[id].key)} | id in t.beliefs ::
      HasChain(t, t.beliefs[id].projectId, t.beliefs[id].key)
  }

  ghost predicate RowsSound(env: Env, t: Tables) {
    forall id | id in t.beliefs ::
      var b := t.beliefs[id];
      && b.beliefId == id
      && b.key == env.normalizeKey(b.key)
      && 0.0 <= b.confidence <= 1.0
      && b.version >= 1
      && (b.status == Active || b.status == Superseded || b.status == PossibleConflict)
      && (b.status == PossibleConflict ==> b.supersedes == None && b.supersededBy == None && b.validTo == None)
  }

  /** The version rows are exactly 1..version of the existing beliefs, and each records its own number. */
  ghost predicate VersionsExact(t: Tables) {
    && (forall k | k in t.versions :: k.0 in t.beliefs && 1 <= k.1 <= t.beliefs[k.0].version)
    && (forall id, v: nat | id in t.beliefs && 1 <= v <= t.beliefs[id].version ::
          (id, v) in t.versions && t.versions[(id, v)].snapshot.version == v
          && t.versions[(id, v)].snapshot.statement == t.beliefs[id].statement)
  }

  /** A belief of a project rests on that project's events, where the project with the empty name has the events of no
      project too; a belief outside any project rests on any event. */
  predicate Visible(belief: Option<string>, event: Option<string>) {
    belief == None || event == belief || (belief == Some("") && event == None)
  }

  /** A call that is not refused names evidence, all of it known and of its project; a user's belief has a user's word. */
  lemma AcceptedEvidence(env: Env, input: Input)
    requires Refusal(env, input).None?
    ensures input.evidence != []
    ensures forall e | e in input.evidence :: env.findEvidence(e).Some? && Visible(input.projectId, env.findEvidence(e).value.projectId)
    ensures input.ownership == User ==> exists e :: e in input.evidence && env.findEvidence(e).value.role == Some("user")
  {
  }

  /** And a call is refused for a reason: something named is empty, missing, unknown, of another project, or not said by
      the user. */
  lemma RefusedForReason(env: Env, input: Input)
    requires Refusal(env, input).Some?
    ensures || env.normalizeKey(input.key) == "" || env.trim(input.statement) == "" || input.evidence == []
            || (exists e :: e in input.evidence && env.findEvidence(e).None?)
            || (exists e :: e in input.evidence && env.findEvidence(e).Some?
                            && !Visible(input.projectId, env.findEvidence(e).value.projectId))
            || (input.ownership == User
                && forall e :: e in input.evidence && env.findEvidence(e).Some? ==> env.findEvidence(e).value.role != Some("user"))
  {
  }

  /** An evidence row names an event the lookup knows and the belief's project may see, with its role. */
  predicate EvidenceRowSound(env: Env, t: Tables, k: (Id, Id, EvidenceType)) {
    && k in t.evidence && k.0 in t.beliefs && env.findEvidence(k.1).Some?
    && Visible(t.beliefs[k.0].projectId, env.findEvidence(k.1).value.projectId)
    && t.evidence[k].role == RoleOf(env.findEvidence(k.1).value)
  }

  /** A belief rests on evidence, and a user's belief on a user's word. */
  ghost predicate HasEvidence(t: Tables, id: Id) {
    && id in t.beliefs
    && (exists k :: k in t.evidence && k.0 == id)
    && (t.beliefs[id].ownership == User ==> exists k :: k in t.evidence && k.0 == id && t.evidence[k].role == "user")
  }

  ghost predicate EvidenceSound(env: Env, t: Tables) {
    && (forall k {:trigger EvidenceRowSound(env, t, k)} | k in t.evidence :: EvidenceRowSound(env, t, k))
    && (forall id {:trigger HasEvidence(t, id)} | id in t.beliefs :: HasEvidence(t, id))
  }

  /** A resolved conflict records a supersession. */
  predicate ConflictRowSound(t: Tables, c: Id) {
    && c in t.conflicts && t.conflicts[c].prior in t.beliefs && t.conflicts[c].proposed in t.beliefs
    && (t.conflicts[c].kind == CorrectsResolved ==>
          t.beliefs[t.conflicts[c].prior].supersededBy == Some(t.conflicts[c].proposed))
  }

  /** A belief set aside has a pending conflict that proposes it. */
  ghost predicate Awaits(t: Tables, id: Id) {
    exists c :: c in t.conflicts && t.conflicts[c].proposed == id && t.conflicts[c].kind == ContradictsPending
  }

  ghost predicate ConflictsSound(t: Tables) {
    && (forall c {:trigger ConflictRowSound(t, c)} | c in t.conflicts :: ConflictRowSound(t, c))
    && (forall id {:trigger Awaits(t, id)} | id in t.beliefs && t.beliefs[id].status == PossibleConflict :: Awaits(t, id))
  }

  ghost predicate Sound(env: Env, t: Tables) {
    RowsSound(env, t) && ChainsExist(t) && VersionsExact(t) && EvidenceSound(env, t) && ConflictsSound(t)
  }
}
