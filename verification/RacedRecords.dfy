/** What racing belief calls keep of the records beside the beliefs: evidence, conflicts, statements, and the times for
    which a belief is valid. */
module RacedRecords {
  import opened Options
  import opened BeliefGovernance
  import opened BeliefHistory
  import opened BeliefRaces

  /** A conflict row joins two beliefs of its project.  In a project a resolved one records a supersession; outside one a
      race can leave it naming a belief that another call superseded. */
  predicate RacedConflict(t: Tables, c: Id) {
    && c in t.conflicts && t.conflicts[c].prior in t.beliefs && t.conflicts[c].proposed in t.beliefs
    && t.beliefs[t.conflicts[c].prior].projectId == t.conflicts[c].projectId
    && (t.conflicts[c].kind == CorrectsResolved && t.conflicts[c].projectId.Some? ==>
          t.beliefs[t.conflicts[c].prior].supersededBy == Some(t.conflicts[c].proposed))
  }

  ghost predicate RacedConflicts(t: Tables) {
    && (forall c {:trigger RacedConflict(t, c)} | c in t.conflicts :: RacedConflict(t, c))
    && (forall id {:trigger Awaits(t, id)} | id in t.beliefs && t.beliefs[id].status == PossibleConflict :: Awaits(t, id))
  }

  ghost predicate RecordsKept(env: Env, t: Tables) {
    RowsSound(env, t) && EvidenceSound(env, t) && RacedConflicts(t)
  }

  /* ---------- insertions ---------- */

  function KindOf(r: Reading): EvidenceType {
    if RelationOf(r.input) == Contradict then Contradicts else Supports
  }

  /** What an insertion that goes through does to evidence and conflicts. */
  ghost predicate RecordsInsertion(env: Env, t: Tables, after: Tables, r: Reading, now: int, id: Id, conflictId: Id)
    requires Refusal(env, r.input).None?
  {
    && after.evidence == WithEvidence(env, t.evidence, id, r.input.evidence, KindOf(r), now)
    && (r.seen.None? ==> after.conflicts == t.conflicts)
    && (r.seen.Some? ==>
          && conflictId !in t.conflicts && after.conflicts.Keys == t.conflicts.Keys + {conflictId}
          && (forall c | c in t.conflicts :: after.conflicts[c] == t.conflicts[c])
          && var row := after.conflicts[conflictId];
             && row.projectId == r.input.projectId && row.prior == r.seen.value.beliefId && row.proposed == id
             && row.kind == if Corrects(r) then CorrectsResolved else ContradictsPending)
  }

  lemma InsertionRecords(env: Env, t: Tables, r: Reading, now: int, id: Id, conflictId: Id)
    requires ReadingSound(env, t, r) && LateInsertion(env, t, r, now, id, conflictId).1.Ok?
    ensures RecordsInsertion(env, t, LateInsertion(env, t, r, now, id, conflictId).0, r, now, id, conflictId)
  {
  }

  lemma InsertionKeepsRows(env: Env, t: Tables, after: Tables, r: Reading, now: int, id: Id)
    requires KeysSettle(env) && ReadingSound(env, t, r) && InsertsLate(env, t, after.beliefs, r, now, id) && RowsSound(env, t)
    ensures RowsSound(env, after)
  {
    assert env.normalizeKey(KeyOf(env, r.input)) == KeyOf(env, r.input);
  }

  lemma InsertionKeepsEvidence(env: Env, t: Tables, after: Tables, r: Reading, now: int, id: Id, conflictId: Id)
    requires ReadingSound(env, t, r) && InsertsLate(env, t, after.beliefs, r, now, id) && EvidenceSound(env, t)
    requires RecordsInsertion(env, t, after, r, now, id, conflictId)
    ensures EvidenceSound(env, after)
  {
    EvidenceGrows(env, t, after, r.input, id, KindOf(r), now);
  }

  /** The belief a correction closes had no successor. */
  ghost predicate ClosesLast(t: Tables, r: Reading)
    requires r.seen.Some? ==> r.seen.value.beliefId in t.beliefs
  {
    r.input.projectId.Some? && Corrects(r) ==>
      var prior := t.beliefs[r.seen.value.beliefId]; prior.status == Active && prior.supersededBy == None
  }

  lemma CorrectionClosesLast(env: Env, t: Tables, after: Tables, r: Reading, now: int, id: Id)
    requires ReadingSound(env, t, r) && InsertsLate(env, t, after.beliefs, r, now, id)
    requires ProjectsChained(t) && !Restates(env, r)
    ensures ClosesLast(t, r)
  {
    if r.input.projectId.Some? && Corrects(r) {
      var project, key, prior := r.input.projectId, KeyOf(env, r.input), r.seen.value.beliefId;
      assert Chained(t, Some(project.value), key);
      IndexMeansInTime(env, t, after, r, now, id);
      var chain :| IsChain(t, project, key, chain);
      CurrentEndsChain(t, project, key, chain, prior);
    }
  }

  lemma OldConflictStays(env: Env, t: Tables, after: Tables, r: Reading, now: int, id: Id, conflictId: Id, c: Id)
    requires ReadingSound(env, t, r) && InsertsLate(env, t, after.beliefs, r, now, id) && RacedConflict(t, c)
    requires RecordsInsertion(env, t, after, r, now, id, conflictId) && ClosesLast(t, r)
    ensures RacedConflict(after, c)
  {
  }

  lemma InsertionKeepsConflicts(env: Env, t: Tables, after: Tables, r: Reading, now: int, id: Id, conflictId: Id)
    requires ReadingSound(env, t, r) && InsertsLate(env, t, after.beliefs, r, now, id) && RacedConflicts(t)
    requires RecordsInsertion(env, t, after, r, now, id, conflictId) && ClosesLast(t, r)
    ensures RacedConflicts(after)
  {
    forall c | c in after.conflicts
      ensures RacedConflict(after, c)
    {
      if c in t.conflicts {
        assert RacedConflict(t, c);
        OldConflictStays(env, t, after, r, now, id, conflictId, c);
      }
    }
    forall i | i in after.beliefs && after.beliefs[i].status == PossibleConflict
      ensures Awaits(after, i)
    {
      if i == id {
        assert conflictId in after.conflicts;
      } else {
        assert Awaits(t, i);
        var c :| c in t.conflicts && t.conflicts[c].proposed == i && t.conflicts[c].kind == ContradictsPending;
        assert c in after.conflicts && after.conflicts[c] == t.conflicts[c];
      }
    }
  }

  lemma InsertionKeepsRecords(env: Env, t: Tables, r: Reading, now: int, id: Id, conflictId: Id)
    requires KeysSettle(env) && ReadingSound(env, t, r) && !Restates(env, r) && ProjectsChained(t) && RecordsKept(env, t)
    ensures RecordsKept(env, LateInsertion(env, t, r, now, id, conflictId).0)
  {
    var done := LateInsertion(env, t, r, now, id, conflictId);
    if done.1.Ok? {
      InsertionShape(env, t, r, now, id, conflictId);
      InsertionRecords(env, t, r, now, id, conflictId);
      CorrectionClosesLast(env, t, done.0, r, now, id);
      InsertionKeepsRows(env, t, done.0, r, now, id);
      InsertionKeepsEvidence(env, t, done.0, r, now, id, conflictId);
      InsertionKeepsConflicts(env, t, done.0, r, now, id, conflictId);
    }
  }

  /* ---------- reinforcements ---------- */

  ghost predicate RecordsReinforcement(env: Env, t: Tables, after: Tables, r: Reading, now: int, id: Id)
    requires Refusal(env, r.input).None?
  {
    && id in t.beliefs && after.beliefs.Keys == t.beliefs.Keys
    && (forall i | i in t.beliefs && i != id :: after.beliefs[i] == t.beliefs[i])
    && SameLinks(t.beliefs[id], after.beliefs[id]) && after.beliefs[id].ownership == t.beliefs[id].ownership
    && after.beliefs[id].version >= 1 && 0.0 <= after.beliefs[id].confidence <= 1.0
    && t.beliefs[id].projectId == r.input.projectId
    && after.evidence == WithEvidence(env, t.evidence, id, r.input.evidence, Supports, now)
    && after.conflicts == t.conflicts
  }

  lemma ReinforcementRecords(env: Env, t: Tables, r: Reading, now: int)
    requires ReadingSound(env, t, r) && r.seen.Some? && LateReinforcement(env, t, r.input, now, r.seen.value).1.Ok?
    ensures RecordsReinforcement(env, t, LateReinforcement(env, t, r.input, now, r.seen.value).0, r, now, r.seen.value.beliefId)
  {
  }

  lemma ReinforcedRecordsKept(env: Env, t: Tables, after: Tables, r: Reading, now: int, id: Id)
    requires Refusal(env, r.input).None? && RecordsReinforcement(env, t, after, r, now, id) && RecordsKept(env, t)
    ensures RecordsKept(env, after)
  {
    EvidenceGrows(env, t, after, r.input, id, Supports, now);
    forall c | c in after.conflicts
      ensures RacedConflict(after, c)
    {
      assert RacedConflict(t, c);
    }
    forall i | i in after.beliefs && after.beliefs[i].status == PossibleConflict
      ensures Awaits(after, i)
    {
      assert Awaits(t, i);
    }
  }

  lemma ReinforcementKeepsRecords(env: Env, t: Tables, r: Reading, now: int)
    requires ReadingSound(env, t, r) && r.seen.Some? && RecordsKept(env, t)
    ensures RecordsKept(env, LateReinforcement(env, t, r.input, now, r.seen.value).0)
  {
    var done := LateReinforcement(env, t, r.input, now, r.seen.value);
    if done.1.Ok? {
      ReinforcementRecords(env, t, r, now);
      ReinforcedRecordsKept(env, t, done.0, r, now, r.seen.value.beliefId);
    }
  }

  /* ---------- every run ---------- */

  lemma StepKeepsRecords(env: Env, s: State, a: Action)
    requires KeysSettle(env) && Kept(env, s) && RecordsKept(env, s.tables)
    ensures RecordsKept(env, Next(env, s, a).tables)
  {
    if a.Commit? && a.caller in s.readings && Writable(env, s.tables, s.readings[a.caller]) {
      var r := s.readings[a.caller];
      assert ReadingSound(env, s.tables, r);
      if Restates(env, r) {
        ReinforcementKeepsRecords(env, s.tables, r, a.now);
      } else {
        InsertionKeepsRecords(env, s.tables, r, a.now, a.id, a.conflictId);
      }
    }
  }

  /** However calls race, every belief rests on evidence its project may see, a user's belief on a user's word, and every
      belief set aside has a pending conflict; in a project every resolved conflict records a supersession. */
  lemma {:induction false} RacesKeepRecords(env: Env, actions: seq<Action>)
    requires KeysSettle(env)
    ensures RecordsKept(env, Run(env, actions).tables)
  {
    if actions == [] {
    } else {
      var before := actions[..|actions| - 1];
      RacesKeepRecords(env, before);
      RunKeeps(env, before);
      StepKeepsRecords(env, Run(env, before), actions[|actions| - 1]);
    }
  }

  /* ---------- what is never rewritten ---------- */

  lemma StepRemembers(env: Env, s: State, a: Action)
    requires Kept(env, s)
    ensures Remembers(s.tables, Next(env, s, a).tables)
  {
    if a.Commit? && a.caller in s.readings && Writable(env, s.tables, s.readings[a.caller]) {
      CommitRemembers(env, s.tables, s.readings[a.caller], a.now, a.id, a.conflictId);
    }
  }

  lemma CommitRemembers(env: Env, t: Tables, r: Reading, now: int, id: Id, conflictId: Id)
    requires Writable(env, t, r)
    ensures Remembers(t, Committed(env, t, r, now, id, conflictId).0)
  {
  }

  lemma {:induction false} RacesRemember(env: Env, actions: seq<Action>, m: nat)
    requires KeysSettle(env) && m <= |actions|
    ensures Remembers(Run(env, actions[..m]).tables, Run(env, actions).tables)
    decreases |actions|
  {
    if m == |actions| {
      assert actions[..m] == actions;
    } else {
      var before := actions[..|actions| - 1];
      assert before[..m] == actions[..m];
      RacesRemember(env, before, m);
      RunKeeps(env, before);
      StepRemembers(env, Run(env, before), actions[|actions| - 1]);
    }
  }

  /* ---------- time ---------- */

  ghost predicate ClocksRise(actions: seq<Action>) {
    forall i, j | 0 <= i < j < |actions| && actions[i].Commit? && actions[j].Commit? :: actions[i].now <= actions[j].now
  }

  lemma StepKeepsTimely(env: Env, s: State, a: Action, clock: int)
    requires Timely(s.tables, if a.Commit? then a.now else clock) && (a.Commit? ==> a.now <= clock)
    ensures Timely(Next(env, s, a).tables, clock)
  {
    if a.Commit? && a.caller in s.readings && Writable(env, s.tables, s.readings[a.caller]) {
      CommitKeepsTimely(env, s.tables, s.readings[a.caller], a.now, a.id, a.conflictId, clock);
    }
  }

  lemma CommitKeepsTimely(env: Env, t: Tables, r: Reading, now: int, id: Id, conflictId: Id, clock: int)
    requires Writable(env, t, r) && Timely(t, now) && now <= clock
    ensures Timely(Committed(env, t, r, now, id, conflictId).0, clock)
  {
  }

  lemma {:induction false} RacesKeepTimely(env: Env, actions: seq<Action>, clock: int)
    requires ClocksRise(actions) && forall i | 0 <= i < |actions| && actions[i].Commit? :: actions[i].now <= clock
    ensures Timely(Run(env, actions).tables, clock)
  {
    if actions == [] {
    } else {
      var before, a := actions[..|actions| - 1], actions[|actions| - 1];
      assert forall i | 0 <= i < |before| :: before[i] == actions[i];
      RacesKeepTimely(env, before, if a.Commit? then a.now else clock);
      StepKeepsTimely(env, Run(env, before), a, clock);
    }
  }

  /** With clocks that never run backwards, the validity intervals of a chain tile time however the calls race. */
  lemma RacesTileTime(env: Env, actions: seq<Action>, clock: int, project: Option<string>, key: string, chain: seq<Id>, time: int)
    requires ClocksRise(actions) && forall i | 0 <= i < |actions| && actions[i].Commit? :: actions[i].now <= clock
    requires IsChain(Run(env, actions).tables, project, key, chain)
    requires Run(env, actions).tables.beliefs[chain[0]].validFrom <= time
    ensures ValidOnce(Run(env, actions).tables, chain, time)
  {
    RacesKeepTimely(env, actions, clock);
    ChainTilesTime(Run(env, actions).tables, project, key, chain, time);
  }
}
