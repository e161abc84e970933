/** What one governed call does, by what it says and what it finds. */
module GovernedOutcomes {
  import opened BeliefGovernance
  import opened BeliefHistory
  import opened Options

  /* ---------- refusals ---------- */

  predicate Unnamed(env: Env, input: Input) {
    env.normalizeKey(input.key) == "" || env.trim(input.statement) == ""
  }

  predicate NamesUnknown(env: Env, input: Input) {
    exists e :: e in input.evidence && env.findEvidence(e).None?
  }

  predicate NamesForeign(env: Env, input: Input) {
    exists e :: e in input.evidence && env.findEvidence(e).Some? && !Visible(input.projectId, env.findEvidence(e).value.projectId)
  }

  predicate QuotesUser(env: Env, input: Input) {
    exists e :: e in input.evidence && env.findEvidence(e).Some? && env.findEvidence(e).value.role == Some("user")
  }

  /** Which complaint a call meets: an empty key or statement goes first, then missing, unknown and foreign evidence,
      and last a user's belief without a user's word. */
  lemma RefusedAs(env: Env, input: Input)
    ensures var unnamed, none, unknown, foreign, unquoted :=
              Unnamed(env, input), input.evidence == [], NamesUnknown(env, input), NamesForeign(env, input),
              input.ownership.User? && !QuotesUser(env, input);
            && (Refusal(env, input) == Some(KeyAndStatementRequired) <==> unnamed)
            && (Refusal(env, input) == Some(MissingEvidence) <==> !unnamed && none)
            && (Refusal(env, input) == Some(UnknownEvidence) <==> !unnamed && !none && unknown)
            && (Refusal(env, input) == Some(ProjectBoundaryViolation) <==> !unnamed && !none && !unknown && foreign)
            && (Refusal(env, input) == Some(UserEvidenceRequired) <==> !unnamed && !none && !unknown && !foreign && unquoted)
            && (Refusal(env, input).None? <==> !unnamed && !none && !unknown && !foreign && !unquoted)
  {
  }

  /* ---------- what a call asks for ---------- */

  predicate Repeats(env: Env, t: Tables, input: Input, id: Id)
    requires id in t.beliefs
  {
    env.normalizeStatement(t.beliefs[id].statement) == env.normalizeStatement(env.trim(input.statement))
  }

  /** To strengthen what is there: by saying so, or by saying the same again without a relation or as an assertion. */
  predicate Strengthens(env: Env, t: Tables, input: Input, id: Id)
    requires id in t.beliefs
  {
    || input.relation == Some(Relation.Reinforce)
    || ((input.relation.None? || input.relation == Some(Relation.Assert)) && Repeats(env, t, input, id))
  }

  /** The reason a version row keeps. */
  predicate Because(input: Input, reason: string, otherwise: string) {
    reason == match input.reason case Some(s) => s case None => otherwise
  }

  predicate NamedAs(relation: Option<Relation>, name: string) {
    match relation
    case None => name == "assert"
    case Some(Assert) => name == "assert"
    case Some(Reinforce) => name == "reinforce"
    case Some(Correct) => name == "correct"
    case Some(Contradict) => name == "contradict"
  }

  /* ---------- what it gets ---------- */

  /** Every belief but `id` is as it was. */
  ghost predicate OthersUntouched(t: Tables, after: Tables, id: Id) {
    && after.beliefs.Keys == t.beliefs.Keys + {id}
    && forall i :: i in t.beliefs && i != id ==> after.beliefs[i] == t.beliefs[i]
  }

  /** A row keeps who spoke, as far as the event says so, and when the row was written. */
  predicate RowOf(env: Env, e: Id, row: EvidenceRow, now: int) {
    && env.findEvidence(e).Some? && row.createdAt == now
    && match env.findEvidence(e).value.role case Some(who) => row.role == who case None => row.role == "unknown"
  }

  /** Each piece of evidence has a row of the kind, stored before or new. */
  ghost predicate EvidenceAdded(env: Env, t: Tables, after: Tables, input: Input, id: Id, kind: EvidenceType, now: int) {
    && (forall k :: k in after.evidence <==> k in t.evidence || (k.0 == id && k.1 in input.evidence && k.2 == kind))
    && (forall k :: k in t.evidence ==> after.evidence[k] == t.evidence[k])
    && (forall k :: k in after.evidence && k !in t.evidence ==> RowOf(env, k.1, after.evidence[k], now))
  }

  /** What the call speaks against is evidence against. */
  predicate Takes(input: Input, kind: EvidenceType) {
    kind.Contradicts? <==> input.relation == Some(Relation.Contradict)
  }

  ghost predicate ConflictAdded(t: Tables, after: Tables, input: Input, now: int, conflictId: Id, prior: Id, proposed: Id, kind: ConflictKind) {
    && after.conflicts.Keys == t.conflicts.Keys + {conflictId}
    && (forall c :: c in t.conflicts ==> after.conflicts[c] == t.conflicts[c])
    && after.conflicts[conflictId] == ConflictRow(input.projectId, prior, proposed, kind, input.reason, input.evidence, now)
  }

  ghost predicate VersionAdded(t: Tables, after: Tables, input: Input, now: int, id: Id, b: Belief, otherwise: string) {
    && input.evidence != []
    && after.versions.Keys == t.versions.Keys + {(id, b.version)}
    && (forall k :: k in t.versions && k != (id, b.version) ==> after.versions[k] == t.versions[k])
    && var row := after.versions[(id, b.version)];
       && row.snapshot == b && row.eventId == input.evidence[0] && row.createdAt == now && Because(input, row.reason, otherwise)
  }

  /** The belief a call writes when it does not strengthen one. */
  ghost predicate Written(env: Env, t: Tables, after: Tables, input: Input, now: int, id: Id) {
    && id in after.beliefs
    && var b := after.beliefs[id];
       && b.beliefId == id && b.projectId == input.projectId && b.ownership == input.ownership && b.beliefType == input.beliefType
       && b.key == env.normalizeKey(input.key) && b.statement == env.trim(input.statement)
       && b.version == 1 && b.validFrom == now && b.validTo.None? && b.supersededBy.None? && b.createdAt == now && b.updatedAt == now
       && (input.confidence.None? ==> b.confidence == if input.ownership.User? then 0.86 else 0.72)
       && (forall x :: input.confidence == Some(x) ==> b.confidence == if 0.0 <= x <= 1.0 then x else if x < 0.0 then 0.0 else 1.0)
       && (exists name :: NamedAs(input.relation, name) && VersionAdded(t, after, input, now, id, b, name))
       && exists kind :: Takes(input, kind) && EvidenceAdded(env, t, after, input, id, kind, now)
  }

  /** From the stored or the given confidence, whichever is larger, up by three percent as far as one allows. */
  predicate Raised(stored: real, given: Option<real>, confidence: real) {
    && (given.None? || given.value <= stored ==> confidence == if stored > 0.97 then 1.0 else stored + 0.03)
    && (given.Some? && given.value > stored ==> confidence == if given.value > 0.97 then 1.0 else given.value + 0.03)
  }

  lemma StrengthenedConfidence(stored: real, given: Option<real>)
    requires 0.0 <= stored <= 1.0
    ensures Raised(stored, given, Clamp(Max(stored, match given case None => 0.0 case Some(c) => c) + 0.03))
  {
  }

  lemma AddsEvidence(env: Env, t: Tables, after: Tables, input: Input, id: Id, kind: EvidenceType, now: int)
    requires Refusal(env, input).None? && after.evidence == WithEvidence(env, t.evidence, id, input.evidence, kind, now)
    ensures EvidenceAdded(env, t, after, input, id, kind, now)
  {
    WithEvidenceRows(env, t.evidence, id, input.evidence, kind, now);
  }

  /** The belief's statement and place stay, and its confidence rises. */
  lemma StrengthenedBelief(env: Env, t: Tables, input: Input, now: int, id: Id, conflictId: Id, c: Id)
    requires Refusal(env, input).None? && c in t.beliefs && Strengthens(env, t, input, c)
    requires (c, t.beliefs[c].version + 1) !in t.versions && 0.0 <= t.beliefs[c].confidence <= 1.0
    ensures var (after, r), b := Applied(env, t, input, now, id, conflictId, Some(c)), t.beliefs[c];
            && OthersUntouched(t, after, c) && after.conflicts == t.conflicts && r == Ok(after.beliefs[c])
            && var d := after.beliefs[c];
               && (d.projectId, d.key, d.statement, d.status, d.validFrom, d.validTo, d.supersedes, d.supersededBy)
                  == (b.projectId, b.key, b.statement, b.status, b.validFrom, b.validTo, b.supersedes, b.supersededBy)
               && d.version == b.version + 1 && d.updatedAt == now && d.createdAt == b.createdAt
               && Raised(b.confidence, input.confidence, d.confidence)
               && VersionAdded(t, after, input, now, c, d, "reinforced")
               && EvidenceAdded(env, t, after, input, c, Supports, now)
  {
    AddsEvidence(env, t, Reinforced(env, t, input, now, c).0, input, c, Supports, now);
    StrengthenedConfidence(t.beliefs[c].confidence, input.confidence);
  }

  predicate IdsFree(t: Tables, id: Id, conflictId: Id) {
    id !in t.beliefs && (id, 1) !in t.versions && conflictId !in t.conflicts
  }

  lemma NameOf(relation: Option<Relation>) returns (name: string)
    ensures NamedAs(relation, name)
    ensures name == RelationName(match relation case None => Assert case Some(r) => r)
  {
    name := RelationName(match relation case None => Assert case Some(r) => r);
  }

  lemma WritesBelief(env: Env, t: Tables, input: Input, now: int, id: Id, conflictId: Id, current: Option<Id>)
    requires Refusal(env, input).None? && IdsFree(t, id, conflictId) && (current.Some? ==> current.value in t.beliefs)
    ensures Written(env, t, Inserted(env, t, input, now, id, conflictId, current).0, input, now, id)
  {
    var kind := if RelationOf(input) == Contradict then Contradicts else Supports;
    var after := Inserted(env, t, input, now, id, conflictId, current).0;
    AddsEvidence(env, t, after, input, id, kind, now);
    assert Takes(input, kind);
    var name := NameOf(input.relation);
    assert VersionAdded(t, after, input, now, id, after.beliefs[id], name);
  }

  /** The first belief under a key is active and contradicts nothing, whatever relation the call names. */
  lemma FirstBelief(env: Env, t: Tables, input: Input, now: int, id: Id, conflictId: Id)
    requires Refusal(env, input).None? && IdsFree(t, id, conflictId)
    ensures var (after, r) := Applied(env, t, input, now, id, conflictId, None);
            && Written(env, t, after, input, now, id) && OthersUntouched(t, after, id)
            && after.beliefs[id].status.Active? && after.beliefs[id].supersedes.None?
            && after.conflicts == t.conflicts && r == Ok(after.beliefs[id])
  {
    WritesBelief(env, t, input, now, id, conflictId, None);
  }

  /** A correction takes the place of the belief it finds, which ends now. */
  lemma CorrectedBelief(env: Env, t: Tables, input: Input, now: int, id: Id, conflictId: Id, c: Id)
    requires Refusal(env, input).None? && IdsFree(t, id, conflictId) && c in t.beliefs && input.relation == Some(Relation.Correct)
    ensures var (after, r) := Applied(env, t, input, now, id, conflictId, Some(c));
            && Written(env, t, after, input, now, id)
            && after.beliefs.Keys == t.beliefs.Keys + {id}
            && (forall i :: i in t.beliefs && i != c ==> after.beliefs[i] == t.beliefs[i])
            && after.beliefs[id].status.Active? && after.beliefs[id].supersedes == Some(c)
            && after.beliefs[c] == t.beliefs[c].(status := Superseded, validTo := Some(now), supersededBy := Some(id), updatedAt := now)
            && ConflictAdded(t, after, input, now, conflictId, c, id, CorrectsResolved) && r == Ok(after.beliefs[id])
  {
    WritesBelief(env, t, input, now, id, conflictId, Some(c));
  }

  /** Anything else said under an occupied key waits as a possible conflict, and what is there stays. */
  lemma DisputedBelief(env: Env, t: Tables, input: Input, now: int, id: Id, conflictId: Id, c: Id)
    requires Refusal(env, input).None? && IdsFree(t, id, conflictId) && c in t.beliefs
    requires input.relation != Some(Relation.Correct) && !Strengthens(env, t, input, c)
    ensures var (after, r) := Applied(env, t, input, now, id, conflictId, Some(c));
            && Written(env, t, after, input, now, id) && OthersUntouched(t, after, id)
            && after.beliefs[id].status.PossibleConflict? && after.beliefs[id].supersedes.None?
            && ConflictAdded(t, after, input, now, conflictId, c, id, ContradictsPending) && r == Ok(after.beliefs[id])
  {
    WritesBelief(env, t, input, now, id, conflictId, Some(c));
  }

  /** A call that is refused, or whose ids are taken, leaves every table as it was. */
  lemma FailedCallChangesNothing(env: Env, t: Tables, input: Input, now: int, id: Id, conflictId: Id, current: Option<Id>)
    requires current.Some? ==> current.value in t.beliefs
    ensures var (after, r) := Applied(env, t, input, now, id, conflictId, current);
            r.Err? ==> after == t && (r.error.ConstraintViolation? || Refusal(env, input) == Some(r.error))
  {
  }
}
