/** Governed belief calls that race.  A call reads the current belief first and writes in a transaction later; any number
    of callers may read and write in between.  What protects the tables is the unique index on the active belief of a
    project and key, and the primary key of the version rows. */
module BeliefRaces {
  import opened Options
  import opened BeliefGovernance
  import opened BeliefHistory

  /** What a call holds between its read and its transaction. */
  datatype Reading = Reading(input: Input, seen: Option<Belief>)

  datatype State = State(tables: Tables, readings: map<nat, Reading>)

  datatype Action =
    | Ask(caller: nat, input: Input, current: Option<Id>)
    | Commit(caller: nat, now: int, id: Id, conflictId: Id)

  function KeyOf(env: Env, input: Input): string {
    env.normalizeKey(input.key)
  }

  predicate Corrects(r: Reading) {
    r.seen.Some? && RelationOf(r.input) == Correct
  }

  predicate Restates(env: Env, r: Reading) {
    r.seen.Some? &&
    (RelationOf(r.input) == Relation.Reinforce ||
     (RelationOf(r.input) == Assert &&
      env.normalizeStatement(r.seen.value.statement) == env.normalizeStatement(env.trim(r.input.statement))))
  }

  /* ---------- the transaction ---------- */

  /** The unique index: no other active belief of the project under the key.  It does not bind rows without a project. */
  predicate IndexAllows(beliefs: map<Id, Belief>, project: Option<string>, key: string) {
    project.Some? ==> forall i | i in beliefs :: !(Under(beliefs[i], project, key) && beliefs[i].status == Active)
  }

  /** The confidence and version are computed from what was read, not from what is there now. */
  function LateReinforcement(env: Env, t: Tables, input: Input, now: int, seen: Belief): (Tables, Result)
    requires Refusal(env, input).None? && seen.beliefId in t.beliefs
  {
    var id := seen.beliefId;
    var floor := match input.confidence case None => 0.0 case Some(c) => c;
    var next := t.beliefs[id].(confidence := Clamp(Max(seen.confidence, floor) + 0.03), version := seen.version + 1, updatedAt := now);
    if (id, next.version) in t.versions then (t, Err(ConstraintViolation))
    else
      var reason := match input.reason case None => "reinforced" case Some(s) => s;
      (Tables(t.beliefs[id := next],
              WithEvidence(env, t.evidence, id, input.evidence, Supports, now),
              t.versions[(id, next.version) := VersionRow(next, reason, input.evidence[0], now)],
              t.conflicts),
       Ok(next))
  }

  /** The beliefs after the update that closes the corrected one, which only an active one undergoes. */
  function Closed(t: Tables, r: Reading, id: Id, now: int): map<Id, Belief>
    requires r.seen.Some? ==> r.seen.value.beliefId in t.beliefs
  {
    if Corrects(r) && t.beliefs[r.seen.value.beliefId].status == Active
    then t.beliefs[r.seen.value.beliefId := t.beliefs[r.seen.value.beliefId].(
                     status := Superseded, validTo := Some(now), supersededBy := Some(id), updatedAt := now)]
    else t.beliefs
  }

  function NewBelief(env: Env, r: Reading, id: Id, now: int): Belief {
    var confidence := match r.input.confidence case None => (if r.input.ownership == User then 0.86 else 0.72) case Some(c) => c;
    Belief(id, r.input.projectId, r.input.ownership, r.input.beliefType, KeyOf(env, r.input), env.trim(r.input.statement),
           if r.seen.Some? && !Corrects(r) then PossibleConflict else Active, Clamp(confidence), 1, now, None,
           if Corrects(r) then Some(r.seen.value.beliefId) else None, None, now, now)
  }

  predicate Fresh(t: Tables, r: Reading, id: Id, conflictId: Id) {
    id !in t.beliefs && (id, 1) !in t.versions && (r.seen.Some? ==> conflictId !in t.conflicts)
  }

  function LateInsertion(env: Env, t: Tables, r: Reading, now: int, id: Id, conflictId: Id): (Tables, Result)
    requires Refusal(env, r.input).None? && (r.seen.Some? ==> r.seen.value.beliefId in t.beliefs)
  {
    var b, kept, relation := NewBelief(env, r, id, now), Closed(t, r, id, now), RelationOf(r.input);
    if !Fresh(t, r, id, conflictId) || (b.status == Active && !IndexAllows(kept, b.projectId, b.key)) then (t, Err(ConstraintViolation))
    else
      var reason := match r.input.reason case None => RelationName(relation) case Some(s) => s;
      (Tables(kept[id := b],
              WithEvidence(env, t.evidence, id, r.input.evidence, if relation == Contradict then Contradicts else Supports, now),
              t.versions[(id, 1) := VersionRow(b, reason, r.input.evidence[0], now)],
              if r.seen.None? then t.conflicts
              else t.conflicts[conflictId := ConflictRow(r.input.projectId, r.seen.value.beliefId, id,
                                                         if Corrects(r) then CorrectsResolved else ContradictsPending,
                                                         r.input.reason, r.input.evidence, now)]),
       Ok(b))
  }

  function Committed(env: Env, t: Tables, r: Reading, now: int, id: Id, conflictId: Id): (Tables, Result)
    requires Refusal(env, r.input).None? && (r.seen.Some? ==> r.seen.value.beliefId in t.beliefs)
  {
    if Restates(env, r) then LateReinforcement(env, t, r.input, now, r.seen.value)
    else LateInsertion(env, t, r, now, id, conflictId)
  }

  /* ---------- runs ---------- */

  function Seen(t: Tables, current: Option<Id>): Option<Belief>
    requires current.Some? ==> current.value in t.beliefs
  {
    if current.None? then None else Some(t.beliefs[current.value])
  }

  /** A caller that asks again, or never commits, has given its first call up. */
  ghost function Next(env: Env, s: State, a: Action): State {
    match a
    case Ask(w, input, current) =>
      if Refusal(env, input).None? && FoundCurrent(env, s.tables, input, current)
      then s.(readings := s.readings[w := Reading(input, Seen(s.tables, current))])
      else s
    case Commit(w, now, id, conflictId) =>
      if w in s.readings && Writable(env, s.tables, s.readings[w])
      then State(Committed(env, s.tables, s.readings[w], now, id, conflictId).0, s.readings - {w})
      else s
  }

  /** Holds of every reading in a run, as `RunKeeps` shows. */
  predicate Writable(env: Env, t: Tables, r: Reading) {
    Refusal(env, r.input).None? && (r.seen.Some? ==> r.seen.value.beliefId in t.beliefs)
  }

  ghost function Run(env: Env, actions: seq<Action>): State {
    if actions == [] then State(Tables(map[], map[], map[], map[]), map[])
    else Next(env, Run(env, actions[..|actions| - 1]), actions[|actions| - 1])
  }

  /* ---------- what every step keeps ---------- */

  predicate IdsFit(t: Tables) {
    forall id | id in t.beliefs :: t.beliefs[id].beliefId == id && 1 <= t.beliefs[id].version
  }

  /** What was read is still there, under the same key, at that version or a later one. */
  predicate ReadingSound(env: Env, t: Tables, r: Reading) {
    && Refusal(env, r.input).None?
    && (r.seen.Some? ==>
          && r.seen.value.beliefId in t.beliefs
          && Under(t.beliefs[r.seen.value.beliefId], r.input.projectId, KeyOf(env, r.input))
          && 1 <= r.seen.value.version <= t.beliefs[r.seen.value.beliefId].version)
  }

  ghost predicate ReadingsSound(env: Env, s: State) {
    forall w {:trigger s.readings[w]} | w in s.readings :: ReadingSound(env, s.tables, s.readings[w])
  }

  /** Under the key of a project there is a chain as soon as there is any belief. */
  ghost predicate Chained(t: Tables, project: Option<string>, key: string) {
    (exists id :: id in t.beliefs && Under(t.beliefs[id], project, key)) ==> HasChain(t, project, key)
  }

  ghost predicate ProjectsChained(t: Tables) {
    forall p, key {:trigger Chained(t, Some(p), key)} :: Chained(t, Some(p), key)
  }

  ghost predicate Kept(env: Env, s: State) {
    IdsFit(s.tables) && ReadingsSound(env, s) && VersionsExact(s.tables) && ProjectsChained(s.tables)
  }

  /** No step takes a belief away, moves it to another key, or lowers its version. */
  ghost predicate Grows(t: Tables, after: Tables) {
    forall i | i in t.beliefs ::
      && i in after.beliefs && after.beliefs[i].projectId == t.beliefs[i].projectId && after.beliefs[i].key == t.beliefs[i].key
      && after.beliefs[i].version >= t.beliefs[i].version
  }

  lemma GrowthKeepsReading(env: Env, t: Tables, after: Tables, r: Reading)
    requires ReadingSound(env, t, r) && Grows(t, after)
    ensures ReadingSound(env, after, r)
  {
  }

  /* ---------- chains ---------- */

  /** What an insertion that goes through does to the beliefs. */
  ghost predicate InsertsLate(env: Env, t: Tables, after: map<Id, Belief>, r: Reading, now: int, id: Id)
    requires r.seen.Some? ==> r.seen.value.beliefId in t.beliefs
  {
    var b, kept := NewBelief(env, r, id, now), Closed(t, r, id, now);
    id !in t.beliefs && after == kept[id := b] && (b.status == Active ==> IndexAllows(kept, b.projectId, b.key))
  }

  /** Keys the new belief does not come under keep their chain. */
  lemma OtherKeysKeepChain(env: Env, t: Tables, after: Tables, r: Reading, now: int, id: Id, project: Option<string>, key: string)
    requires ReadingSound(env, t, r) && InsertsLate(env, t, after.beliefs, r, now, id)
    requires !(r.input.projectId == project && KeyOf(env, r.input) == key) && Chained(t, project, key)
    ensures Chained(after, project, key)
  {
    forall i | i in after.beliefs && Under(after.beliefs[i], project, key)
      ensures i in t.beliefs && t.beliefs[i] == after.beliefs[i]
    {
    }
    if HasChain(t, project, key) {
      HasChainKept(t, after, project, key);
    }
  }

  /** A belief set aside leaves the chain of its key alone. */
  lemma SetAsideKeepsChain(env: Env, t: Tables, after: Tables, r: Reading, now: int, id: Id)
    requires ReadingSound(env, t, r) && InsertsLate(env, t, after.beliefs, r, now, id)
    requires r.seen.Some? && !Corrects(r) && Chained(t, r.input.projectId, KeyOf(env, r.input))
    ensures HasChain(after, r.input.projectId, KeyOf(env, r.input))
  {
    HasChainKept(t, after, r.input.projectId, KeyOf(env, r.input));
  }

  /** Correcting the belief that is still active extends the chain. */
  lemma CorrectionExtendsChain(env: Env, t: Tables, after: Tables, r: Reading, now: int, id: Id)
    requires IdsFit(t) && ReadingSound(env, t, r) && InsertsLate(env, t, after.beliefs, r, now, id)
    requires Corrects(r) && t.beliefs[r.seen.value.beliefId].status == Active
    requires Chained(t, r.input.projectId, KeyOf(env, r.input))
    ensures HasChain(after, r.input.projectId, KeyOf(env, r.input))
  {
    var project, key, prior := r.input.projectId, KeyOf(env, r.input), r.seen.value.beliefId;
    var chain :| IsChain(t, project, key, chain);
    CurrentEndsChain(t, project, key, chain, prior);
    ChainExtended(t, after, project, key, chain, prior, id, now);
  }

  /** A first belief under a key is a chain. */
  lemma FirstStartsChain(env: Env, t: Tables, after: Tables, r: Reading, now: int, id: Id)
    requires ReadingSound(env, t, r) && InsertsLate(env, t, after.beliefs, r, now, id)
    requires r.seen.None? && NoneUnderKey(t, r.input.projectId, KeyOf(env, r.input))
    ensures HasChain(after, r.input.projectId, KeyOf(env, r.input))
  {
    assert IsChain(after, r.input.projectId, KeyOf(env, r.input), [id]);
  }

  ghost predicate NoneUnderKey(t: Tables, project: Option<string>, key: string) {
    forall i | i in t.beliefs :: !Under(t.beliefs[i], project, key)
  }

  /** What the call wants to write still follows from what is there: a corrected belief is still active, and a first
      belief is still the first. */
  ghost predicate InTime(env: Env, t: Tables, r: Reading)
    requires r.seen.Some? ==> r.seen.value.beliefId in t.beliefs
  {
    if Restates(env, r) then true
    else if Corrects(r) then t.beliefs[r.seen.value.beliefId].status == Active
    else r.seen.Some? || NoneUnderKey(t, r.input.projectId, KeyOf(env, r.input))
  }

  /** An insertion in time keeps every chain. */
  lemma InsertionKeepsChain(env: Env, t: Tables, after: Tables, r: Reading, now: int, id: Id, project: Option<string>, key: string)
    requires IdsFit(t) && ReadingSound(env, t, r) && InsertsLate(env, t, after.beliefs, r, now, id)
    requires Chained(t, project, key) && !Restates(env, r)
    requires r.input.projectId == project && KeyOf(env, r.input) == key ==> InTime(env, t, r)
    ensures Chained(after, project, key)
  {
    if !(r.input.projectId == project && KeyOf(env, r.input) == key) {
      OtherKeysKeepChain(env, t, after, r, now, id, project, key);
    } else if r.seen.None? {
      FirstStartsChain(env, t, after, r, now, id);
    } else if Corrects(r) {
      CorrectionExtendsChain(env, t, after, r, now, id);
    } else {
      SetAsideKeepsChain(env, t, after, r, now, id);
    }
  }

  /** In a project the unique index lets only insertions in time through. */
  lemma IndexMeansInTime(env: Env, t: Tables, after: Tables, r: Reading, now: int, id: Id)
    requires ReadingSound(env, t, r) && InsertsLate(env, t, after.beliefs, r, now, id)
    requires r.input.projectId.Some? && Chained(t, r.input.projectId, KeyOf(env, r.input))
    ensures InTime(env, t, r)
  {
    var project, key := r.input.projectId, KeyOf(env, r.input);
    if Corrects(r) {
      var chain :| IsChain(t, project, key, chain);
      var last := chain[|chain| - 1];
      assert t.beliefs[last].status == Active && Under(t.beliefs[last], project, key);
    } else if r.seen.None? {
      assert NoneCurrent(t, project, key);
      NoChainWithoutCurrent(t, project, key);
    }
  }

  /* ---------- one transaction ---------- */

  lemma InsertionShape(env: Env, t: Tables, r: Reading, now: int, id: Id, conflictId: Id)
    requires ReadingSound(env, t, r) && LateInsertion(env, t, r, now, id, conflictId).1.Ok?
    ensures var after := LateInsertion(env, t, r, now, id, conflictId).0;
            && InsertsLate(env, t, after.beliefs, r, now, id)
            && exists row: VersionRow :: row.snapshot == after.beliefs[id] && after.versions == t.versions[(id, 1) := row]
  {
    var after := LateInsertion(env, t, r, now, id, conflictId).0;
    var row := after.versions[(id, 1)];
    assert row.snapshot == after.beliefs[id] && after.versions == t.versions[(id, 1) := row];
  }

  lemma InsertionKeepsVersions(env: Env, t: Tables, after: Tables, r: Reading, now: int, id: Id, row: VersionRow)
    requires ReadingSound(env, t, r) && InsertsLate(env, t, after.beliefs, r, now, id) && VersionsExact(t)
    requires row.snapshot == after.beliefs[id] && after.versions == t.versions[(id, 1) := row]
    ensures VersionsExact(after)
  {
    VersionsGrow(t, after, id, row);
  }

  lemma InsertionGrows(env: Env, t: Tables, after: Tables, r: Reading, now: int, id: Id)
    requires ReadingSound(env, t, r) && InsertsLate(env, t, after.beliefs, r, now, id) && IdsFit(t)
    ensures Grows(t, after) && IdsFit(after)
  {
  }

  lemma InsertionKeeps(env: Env, t: Tables, r: Reading, now: int, id: Id, conflictId: Id)
    requires !Restates(env, r) && IdsFit(t) && VersionsExact(t) && ProjectsChained(t) && ReadingSound(env, t, r)
    ensures var after := LateInsertion(env, t, r, now, id, conflictId).0;
            IdsFit(after) && VersionsExact(after) && ProjectsChained(after) && Grows(t, after)
  {
    var done := LateInsertion(env, t, r, now, id, conflictId);
    if done.1.Ok? {
      InsertionShape(env, t, r, now, id, conflictId);
      var row: VersionRow :| row.snapshot == done.0.beliefs[id] && done.0.versions == t.versions[(id, 1) := row];
      InsertionKeepsVersions(env, t, done.0, r, now, id, row);
      InsertionGrows(env, t, done.0, r, now, id);
      forall p, key ensures Chained(done.0, Some(p), key) {
        assert Chained(t, Some(p), key);
        if r.input.projectId == Some(p) && KeyOf(env, r.input) == key {
          IndexMeansInTime(env, t, done.0, r, now, id);
        }
        InsertionKeepsChain(env, t, done.0, r, now, id, Some(p), key);
      }
    }
  }

  /** A reinforcement goes through exactly when nobody has reinforced the belief since it was read. */
  lemma ReinforcementIsTimely(env: Env, t: Tables, r: Reading, now: int)
    requires ReadingSound(env, t, r) && VersionsExact(t) && r.seen.Some?
    ensures LateReinforcement(env, t, r.input, now, r.seen.value).1.Ok? <==>
            r.seen.value.version == t.beliefs[r.seen.value.beliefId].version
  {
    var id, v: nat := r.seen.value.beliefId, r.seen.value.version + 1;
    if v <= t.beliefs[id].version {
      assert (id, v) in t.versions;
    }
  }

  /** A reinforcement that goes through. */
  ghost predicate ReinforcesLate(t: Tables, after: Tables, id: Id) {
    && id in t.beliefs && after.beliefs.Keys == t.beliefs.Keys
    && (forall i | i in t.beliefs && i != id :: after.beliefs[i] == t.beliefs[i])
    && SameLinks(t.beliefs[id], after.beliefs[id]) && after.beliefs[id].statement == t.beliefs[id].statement
    && after.beliefs[id].version == t.beliefs[id].version + 1
    && exists row: VersionRow :: row.snapshot == after.beliefs[id] && after.versions == t.versions[(id, after.beliefs[id].version) := row]
  }

  lemma ReinforcementShape(env: Env, t: Tables, r: Reading, now: int)
    requires ReadingSound(env, t, r) && r.seen.Some? && r.seen.value.version == t.beliefs[r.seen.value.beliefId].version
    requires LateReinforcement(env, t, r.input, now, r.seen.value).1.Ok?
    ensures ReinforcesLate(t, LateReinforcement(env, t, r.input, now, r.seen.value).0, r.seen.value.beliefId)
  {
    var after, id := LateReinforcement(env, t, r.input, now, r.seen.value).0, r.seen.value.beliefId;
    var row := after.versions[(id, after.beliefs[id].version)];
    assert row.snapshot == after.beliefs[id] && after.versions == t.versions[(id, after.beliefs[id].version) := row];
  }

  lemma ReinforcedStaysKept(t: Tables, after: Tables, id: Id)
    requires IdsFit(t) && VersionsExact(t) && ProjectsChained(t) && ReinforcesLate(t, after, id)
    ensures IdsFit(after) && VersionsExact(after) && ProjectsChained(after) && Grows(t, after)
  {
    var row: VersionRow :| row.snapshot == after.beliefs[id] && after.versions == t.versions[(id, after.beliefs[id].version) := row];
    VersionsGrow(t, after, id, row);
    forall p, key ensures Chained(after, Some(p), key) {
      assert Chained(t, Some(p), key);
      if HasChain(t, Some(p), key) {
        HasChainKept(t, after, Some(p), key);
      }
    }
  }

  lemma ReinforcementKeeps(env: Env, t: Tables, r: Reading, now: int)
    requires IdsFit(t) && VersionsExact(t) && ProjectsChained(t) && ReadingSound(env, t, r) && r.seen.Some?
    ensures var after := LateReinforcement(env, t, r.input, now, r.seen.value).0;
            IdsFit(after) && VersionsExact(after) && ProjectsChained(after) && Grows(t, after)
  {
    ReinforcementIsTimely(env, t, r, now);
    if LateReinforcement(env, t, r.input, now, r.seen.value).1.Ok? {
      ReinforcementShape(env, t, r, now);
      ReinforcedStaysKept(t, LateReinforcement(env, t, r.input, now, r.seen.value).0, r.seen.value.beliefId);
    }
  }

  /* ---------- every run ---------- */

  lemma AskKeeps(env: Env, s: State, w: nat, input: Input, current: Option<Id>)
    requires Kept(env, s) && KeysSettle(env)
    ensures Kept(env, Next(env, s, Ask(w, input, current)))
  {
  }

  lemma CommitKeeps(env: Env, s: State, w: nat, now: int, id: Id, conflictId: Id)
    requires Kept(env, s)
    ensures Kept(env, Next(env, s, Commit(w, now, id, conflictId)))
  {
    var t := Next(env, s, Commit(w, now, id, conflictId));
    if t != s {
      var r := s.readings[w];
      if Restates(env, r) {
        ReinforcementKeeps(env, s.tables, r, now);
      } else {
        InsertionKeeps(env, s.tables, r, now, id, conflictId);
      }
      forall v | v in t.readings ensures ReadingSound(env, t.tables, t.readings[v]) {
        assert ReadingSound(env, s.tables, s.readings[v]);
        GrowthKeepsReading(env, s.tables, t.tables, s.readings[v]);
      }
    }
  }

  lemma {:induction false} RunKeeps(env: Env, actions: seq<Action>)
    requires KeysSettle(env)
    ensures Kept(env, Run(env, actions))
  {
    if actions == [] {
    } else {
      RunKeeps(env, actions[..|actions| - 1]);
      match actions[|actions| - 1] {
        case Ask(w, input, current) => AskKeeps(env, Run(env, actions[..|actions| - 1]), w, input, current);
        case Commit(w, now, id, conflictId) => CommitKeeps(env, Run(env, actions[..|actions| - 1]), w, now, id, conflictId);
      }
    }
  }

  /* ---------- the results ---------- */

  /** However calls race, a key of a project that has any belief has exactly one active one, which ends the chain of
      the superseded ones. */
  lemma RacesLeaveOneActive(env: Env, actions: seq<Action>, project: string, key: string, id: Id)
    requires KeysSettle(env)
    requires var t := Run(env, actions).tables; id in t.beliefs && Under(t.beliefs[id], Some(project), key)
    ensures var t := Run(env, actions).tables;
            exists chain :: IsChain(t, Some(project), key, chain)
              && forall i | i in t.beliefs && Under(t.beliefs[i], Some(project), key) && t.beliefs[i].status == Active ::
                   i == chain[|chain| - 1]
  {
    RunKeeps(env, actions);
    var t := Run(env, actions).tables;
    assert Chained(t, Some(project), key);
    var chain :| IsChain(t, Some(project), key, chain);
    forall i | i in t.beliefs && Under(t.beliefs[i], Some(project), key) && t.beliefs[i].status == Active
      ensures i == chain[|chain| - 1]
    {
      CurrentEndsChain(t, Some(project), key, chain, i);
    }
  }

  /** And its version rows are exactly 1..version, for every belief, with or without a project. */
  lemma RacesKeepVersions(env: Env, actions: seq<Action>)
    requires KeysSettle(env)
    ensures VersionsExact(Run(env, actions).tables)
  {
    RunKeeps(env, actions);
  }

  /** Whether what was read is still good enough to write. */
  ghost predicate StillHolds(env: Env, t: Tables, r: Reading)
    requires r.seen.Some? ==> r.seen.value.beliefId in t.beliefs
  {
    if Restates(env, r) then r.seen.value.version == t.beliefs[r.seen.value.beliefId].version
    else r.input.projectId.Some? ==> InTime(env, t, r)
  }

  lemma CorrectionAllowed(env: Env, t: Tables, r: Reading, now: int, id: Id)
    requires ReadingSound(env, t, r) && Corrects(r) && r.input.projectId.Some?
    requires Chained(t, r.input.projectId, KeyOf(env, r.input))
    ensures IndexAllows(Closed(t, r, id, now), r.input.projectId, KeyOf(env, r.input)) <==>
            t.beliefs[r.seen.value.beliefId].status == Active
  {
    var project, key, prior := r.input.projectId, KeyOf(env, r.input), r.seen.value.beliefId;
    var chain :| IsChain(t, project, key, chain);
    var last := chain[|chain| - 1];
    if t.beliefs[prior].status == Active {
      forall i | i in t.beliefs && Under(t.beliefs[i], project, key) && t.beliefs[i].status == Active ensures i == prior {
        CurrentEndsChain(t, project, key, chain, i);
        CurrentEndsChain(t, project, key, chain, prior);
      }
    } else {
      assert last in t.beliefs && Under(t.beliefs[last], project, key) && t.beliefs[last].status == Active;
    }
  }

  lemma FirstAllowed(env: Env, t: Tables, r: Reading, now: int, id: Id)
    requires ReadingSound(env, t, r) && r.seen.None? && r.input.projectId.Some?
    requires Chained(t, r.input.projectId, KeyOf(env, r.input))
    ensures IndexAllows(Closed(t, r, id, now), r.input.projectId, KeyOf(env, r.input)) <==>
            NoneUnderKey(t, r.input.projectId, KeyOf(env, r.input))
  {
    var project, key := r.input.projectId, KeyOf(env, r.input);
    if NoneCurrent(t, project, key) {
      NoChainWithoutCurrent(t, project, key);
    }
  }

  /** When a transaction goes through, for fresh ids: a reinforcement when nobody reinforced the belief in between, and
      for a project a correction when the belief read is still active and a first belief when there is none yet.  Without
      a project nothing guards the last two.  A transaction that does not go through changes nothing. */
  lemma GoesThroughIff(env: Env, t: Tables, r: Reading, now: int, id: Id, conflictId: Id)
    requires VersionsExact(t) && ProjectsChained(t) && ReadingSound(env, t, r) && Fresh(t, r, id, conflictId)
    ensures Committed(env, t, r, now, id, conflictId).1.Ok? <==> StillHolds(env, t, r)
    ensures !StillHolds(env, t, r) ==> Committed(env, t, r, now, id, conflictId).0 == t
  {
    if Restates(env, r) {
      ReinforcementIsTimely(env, t, r, now);
    } else if r.input.projectId.Some? {
      assert Chained(t, Some(r.input.projectId.value), KeyOf(env, r.input));
      if Corrects(r) {
        CorrectionAllowed(env, t, r, now, id);
      } else if r.seen.None? {
        FirstAllowed(env, t, r, now, id);
      }
    }
  }

  lemma SoundIsChained(env: Env, t: Tables, project: Option<string>, key: string)
    requires Sound(env, t)
    ensures Chained(t, project, key)
  {
    if id :| id in t.beliefs && Under(t.beliefs[id], project, key) {
      assert HasChain(t, t.beliefs[id].projectId, t.beliefs[id].key);
    }
  }

  lemma AtOnceAllowed(env: Env, t: Tables, r: Reading, now: int, id: Id, current: Option<Id>)
    requires Sound(env, t) && KeysSettle(env) && Refusal(env, r.input).None? && FoundCurrent(env, t, r.input, current)
    requires r.seen == Seen(t, current) && !(r.seen.Some? && !Corrects(r))
    ensures IndexAllows(Closed(t, r, id, now), r.input.projectId, KeyOf(env, r.input))
  {
    var key := KeyOf(env, r.input);
    assert env.normalizeKey(key) == key;
    SoundIsChained(env, t, r.input.projectId, key);
    if r.input.projectId.Some? {
      if Corrects(r) {
        CorrectionAllowed(env, t, r, now, id);
      } else {
        NoneUnder(t, r.input.projectId, key);
      }
    }
  }

  /** Without a race in between, reading and writing are the one step that `BeliefHistory` reasons about. */
  lemma AtOnceIsApplied(env: Env, t: Tables, input: Input, now: int, id: Id, conflictId: Id, current: Option<Id>)
    requires Sound(env, t) && KeysSettle(env) && Refusal(env, input).None? && FoundCurrent(env, t, input, current)
    ensures Committed(env, t, Reading(input, Seen(t, current)), now, id, conflictId) ==
            Applied(env, t, input, now, id, conflictId, current)
  {
    var r := Reading(input, Seen(t, current));
    assert current.Some? ==> t.beliefs[current.value].beliefId == current.value;
    if Restates(env, r) {
      AtOnceReinforced(env, t, input, now, current.value);
    } else {
      if !(r.seen.Some? && !Corrects(r)) {
        AtOnceAllowed(env, t, r, now, id, current);
      }
      AtOnceInserted(env, t, r, now, id, conflictId, current);
    }
  }

  lemma AtOnceReinforced(env: Env, t: Tables, input: Input, now: int, id: Id)
    requires Refusal(env, input).None? && id in t.beliefs && t.beliefs[id].beliefId == id
    ensures LateReinforcement(env, t, input, now, t.beliefs[id]) == Reinforced(env, t, input, now, id)
  {
  }

  lemma AtOnceInserted(env: Env, t: Tables, r: Reading, now: int, id: Id, conflictId: Id, current: Option<Id>)
    requires Refusal(env, r.input).None?
    requires current.Some? ==> current.value in t.beliefs && t.beliefs[current.value].beliefId == current.value
                               && t.beliefs[current.value].status == Active
    requires r.seen == Seen(t, current)
    requires !(r.seen.Some? && !Corrects(r)) ==> IndexAllows(Closed(t, r, id, now), r.input.projectId, KeyOf(env, r.input))
    ensures LateInsertion(env, t, r, now, id, conflictId) == Inserted(env, t, r.input, now, id, conflictId, current)
  {
  }
}
