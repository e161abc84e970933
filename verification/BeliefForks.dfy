/** Where the unique index does not reach: what races can do to the beliefs outside any project. */
module BeliefForks {
  import opened Options
  import opened BeliefGovernance
  import opened BeliefHistory
  import opened BeliefRaces

  /** Two different active beliefs under one key. */
  ghost predicate Forked(t: Tables, project: Option<string>, key: string) {
    exists i, j :: i != j && ActiveUnder(t, project, key, i) && ActiveUnder(t, project, key, j)
  }

  predicate ActiveUnder(t: Tables, project: Option<string>, key: string, i: Id) {
    i in t.beliefs && Under(t.beliefs[i], project, key) && t.beliefs[i].status == Active
  }

  lemma ForkedIsNoChain(t: Tables, project: Option<string>, key: string)
    requires Forked(t, project, key)
    ensures !Chained(t, project, key)
  {
    var i, j :| i != j && ActiveUnder(t, project, key, i) && ActiveUnder(t, project, key, j);
    if Chained(t, project, key) {
      var chain :| IsChain(t, project, key, chain);
      CurrentEndsChain(t, project, key, chain, i);
      CurrentEndsChain(t, project, key, chain, j);
    }
  }

  /* ---------- one transaction ---------- */

  /** An insertion that comes too late stands beside the active belief that was there in time. */
  lemma LateInsertionForks(env: Env, t: Tables, after: Tables, r: Reading, now: int, id: Id)
    requires ReadingSound(env, t, r) && InsertsLate(env, t, after.beliefs, r, now, id)
    requires !InTime(env, t, r) && Chained(t, r.input.projectId, KeyOf(env, r.input))
    ensures Forked(after, r.input.projectId, KeyOf(env, r.input))
  {
    var project, key := r.input.projectId, KeyOf(env, r.input);
    var chain :| IsChain(t, project, key, chain);
    var last := chain[|chain| - 1];
    assert ActiveUnder(after, project, key, last) && ActiveUnder(after, project, key, id);
  }

  /** A transaction never joins two active beliefs: a correction replaces at most one by another. */
  lemma InsertionKeepsFork(env: Env, t: Tables, after: Tables, r: Reading, now: int, id: Id, project: Option<string>, key: string)
    requires ReadingSound(env, t, r) && InsertsLate(env, t, after.beliefs, r, now, id) && Forked(t, project, key)
    ensures Forked(after, project, key)
  {
    var i, j :| i != j && ActiveUnder(t, project, key, i) && ActiveUnder(t, project, key, j);
    if Corrects(r) && r.seen.value.beliefId == i {
      assert ActiveUnder(after, project, key, id) && ActiveUnder(after, project, key, j);
    } else if Corrects(r) && r.seen.value.beliefId == j {
      assert ActiveUnder(after, project, key, id) && ActiveUnder(after, project, key, i);
    } else {
      assert ActiveUnder(after, project, key, i) && ActiveUnder(after, project, key, j);
    }
  }

  lemma ReinforcementKeepsBoth(t: Tables, after: Tables, id: Id, project: Option<string>, key: string)
    requires ReinforcesLate(t, after, id)
    ensures Chained(t, project, key) ==> Chained(after, project, key)
    ensures Forked(t, project, key) ==> Forked(after, project, key)
  {
    if HasChain(t, project, key) {
      HasChainKept(t, after, project, key);
    }
    if Forked(t, project, key) {
      var i, j :| i != j && ActiveUnder(t, project, key, i) && ActiveUnder(t, project, key, j);
      assert ActiveUnder(after, project, key, i) && ActiveUnder(after, project, key, j);
    }
  }

  predicate Here(env: Env, r: Reading, project: Option<string>, key: string) {
    r.input.projectId == project && KeyOf(env, r.input) == key
  }

  lemma InsertionKeepsOrForks(env: Env, t: Tables, r: Reading, now: int, id: Id, conflictId: Id, project: Option<string>, key: string)
    requires IdsFit(t) && ReadingSound(env, t, r) && !Restates(env, r)
    requires LateInsertion(env, t, r, now, id, conflictId).1.Ok?
    ensures var after := LateInsertion(env, t, r, now, id, conflictId).0;
            && (Forked(t, project, key) ==> Forked(after, project, key))
            && (Chained(t, project, key) ==> if Here(env, r, project, key) ==> InTime(env, t, r)
                                             then Chained(after, project, key) else Forked(after, project, key))
  {
    var after := LateInsertion(env, t, r, now, id, conflictId).0;
    InsertionShape(env, t, r, now, id, conflictId);
    if Forked(t, project, key) {
      InsertionKeepsFork(env, t, after, r, now, id, project, key);
    }
    if Chained(t, project, key) {
      if Here(env, r, project, key) ==> InTime(env, t, r) {
        InsertionKeepsChain(env, t, after, r, now, id, project, key);
      } else {
        LateInsertionForks(env, t, after, r, now, id);
      }
    }
  }

  lemma ReinforcementIsHarmless(env: Env, t: Tables, r: Reading, now: int, project: Option<string>, key: string)
    requires VersionsExact(t) && ReadingSound(env, t, r) && r.seen.Some?
    ensures var after := LateReinforcement(env, t, r.input, now, r.seen.value).0;
            && (Forked(t, project, key) ==> Forked(after, project, key))
            && (Chained(t, project, key) ==> Chained(after, project, key))
  {
    ReinforcementIsTimely(env, t, r, now);
    if LateReinforcement(env, t, r.input, now, r.seen.value).1.Ok? {
      ReinforcementShape(env, t, r, now);
      ReinforcementKeepsBoth(t, LateReinforcement(env, t, r.input, now, r.seen.value).0, r.seen.value.beliefId, project, key);
    }
  }

  /** Outside a project a transaction with fresh ids keeps the chain of its key exactly when it is in time, and forks the
      key otherwise.  Being in time is the guard of the update that closes the corrected belief. */
  lemma KeepsChainIff(env: Env, t: Tables, r: Reading, now: int, id: Id, conflictId: Id)
    requires r.input.projectId.None? && IdsFit(t) && VersionsExact(t)
    requires ReadingSound(env, t, r) && Fresh(t, r, id, conflictId) && Chained(t, None, KeyOf(env, r.input))
    ensures var after := Committed(env, t, r, now, id, conflictId).0;
            && (Chained(after, None, KeyOf(env, r.input)) <==> InTime(env, t, r))
            && (Forked(after, None, KeyOf(env, r.input)) <==> !InTime(env, t, r))
  {
    var after, key := Committed(env, t, r, now, id, conflictId).0, KeyOf(env, r.input);
    if Restates(env, r) {
      ReinforcementIsHarmless(env, t, r, now, None, key);
    } else {
      InsertionKeepsOrForks(env, t, r, now, id, conflictId, None, key);
    }
    if Forked(after, None, key) {
      ForkedIsNoChain(after, None, key);
    }
  }

  /* ---------- every run ---------- */

  /** The step is not a commit under the key that goes through although it comes too late. */
  ghost predicate StepInTime(env: Env, s: State, a: Action, project: Option<string>, key: string) {
    a.Commit? && a.caller in s.readings && Writable(env, s.tables, s.readings[a.caller])
    && Here(env, s.readings[a.caller], project, key)
    && Committed(env, s.tables, s.readings[a.caller], a.now, a.id, a.conflictId).1.Ok? ==>
      InTime(env, s.tables, s.readings[a.caller])
  }

  ghost predicate RunInTime(env: Env, actions: seq<Action>, project: Option<string>, key: string) {
    actions != [] ==>
      && RunInTime(env, actions[..|actions| - 1], project, key)
      && StepInTime(env, Run(env, actions[..|actions| - 1]), actions[|actions| - 1], project, key)
  }

  lemma StepKeepsOrForks(env: Env, s: State, a: Action, project: Option<string>, key: string)
    requires Kept(env, s)
    ensures Forked(s.tables, project, key) ==> Forked(Next(env, s, a).tables, project, key)
    ensures Chained(s.tables, project, key) ==>
              if StepInTime(env, s, a, project, key) then Chained(Next(env, s, a).tables, project, key)
              else Forked(Next(env, s, a).tables, project, key)
  {
    if a.Commit? && a.caller in s.readings && Writable(env, s.tables, s.readings[a.caller]) {
      var t, r := s.tables, s.readings[a.caller];
      assert ReadingSound(env, t, r);
      if Restates(env, r) {
        ReinforcementIsHarmless(env, t, r, a.now, project, key);
      } else if LateInsertion(env, t, r, a.now, a.id, a.conflictId).1.Ok? {
        InsertionKeepsOrForks(env, t, r, a.now, a.id, a.conflictId, project, key);
      }
    }
  }

  lemma {:induction false} RunKeepsOrForks(env: Env, actions: seq<Action>, project: Option<string>, key: string)
    requires KeysSettle(env)
    ensures if RunInTime(env, actions, project, key) then Chained(Run(env, actions).tables, project, key)
            else Forked(Run(env, actions).tables, project, key)
  {
    if actions == [] {
    } else {
      var before := actions[..|actions| - 1];
      RunKeepsOrForks(env, before, project, key);
      RunKeeps(env, before);
      StepKeepsOrForks(env, Run(env, before), actions[|actions| - 1], project, key);
    }
  }

  /** Over every run, with or without a project: the beliefs under a key form one chain that ends at the only active one
      exactly when every transaction under the key that went through was in time; otherwise the key is forked, for good. */
  lemma ChainedIffInTime(env: Env, actions: seq<Action>, project: Option<string>, key: string)
    requires KeysSettle(env)
    ensures Chained(Run(env, actions).tables, project, key) <==> RunInTime(env, actions, project, key)
    ensures Forked(Run(env, actions).tables, project, key) <==> !RunInTime(env, actions, project, key)
    ensures project.Some? ==> RunInTime(env, actions, project, key)
  {
    RunKeepsOrForks(env, actions, project, key);
    RunKeeps(env, actions);
    if Forked(Run(env, actions).tables, project, key) {
      ForkedIsNoChain(Run(env, actions).tables, project, key);
    }
    if project.Some? {
      assert Chained(Run(env, actions).tables, Some(project.value), key);
    }
  }

  /* ---------- two runs ---------- */

  /** Every event is a user's word in the project. */
  function Plain(project: Option<string>): Env {
    Env((k: string) => k, (s: string) => s, (s: string) => s, (e: Id) => Some(EvidenceRecord(e, project, Some("user"))))
  }

  function Saying(project: Option<string>, statement: string, relation: Relation): Input {
    Input(project, User, Fact, "k", statement, [0], Some(relation), None, None)
  }

  function Stated(project: Option<string>, id: Id, statement: string, now: int, prior: Option<Id>): Belief {
    Belief(id, project, User, Fact, "k", statement, Active, 0.86, 1, now, None, prior, None, now, now)
  }

  /** One belief, then two callers that both read it: the second corrects it, and both write. */
  function RaceOn(project: Option<string>, first: Input): seq<Action> {
    [Ask(0, Saying(project, "a", Assert), None), Commit(0, 1, 1, 1),
     Ask(1, first, Some(1)), Ask(0, Saying(project, "b", Correct), Some(1)),
     Commit(0, 2, 2, 2), Commit(1, 3, 3, 3)]
  }

  lemma RunOne(env: Env, actions: seq<Action>, a: Action)
    ensures Run(env, actions + [a]) == Next(env, Run(env, actions), a)
  {
    assert (actions + [a])[..|actions|] == actions;
  }

  lemma PlainNeverRefuses(project: Option<string>, statement: string, relation: Relation)
    requires statement != ""
    ensures Refusal(Plain(project), Saying(project, statement, relation)).None? && KeysSettle(Plain(project))
  {
    assert 0 in Saying(project, statement, relation).evidence;
  }

  lemma FirstIsStated(project: Option<string>) returns (s: State)
    ensures s == Run(Plain(project), [Ask(0, Saying(project, "a", Assert), None), Commit(0, 1, 1, 1)])
    ensures s.readings == map[] && s.tables.beliefs == map[1 := Stated(project, 1, "a", 1, None)]
    ensures s.tables.versions.Keys == {(1, 1)} && s.tables.conflicts == map[]
  {
    var ask, commit := Ask(0, Saying(project, "a", Assert), None), Commit(0, 1, 1, 1);
    PlainNeverRefuses(project, "a", Assert);
    assert [ask, commit] == ([] + [ask]) + [commit];
    RunOne(Plain(project), [], ask);
    RunOne(Plain(project), [] + [ask], commit);
    s := Run(Plain(project), [ask, commit]);
  }

  lemma Reads(project: Option<string>, s: State, w: nat, statement: string, relation: Relation)
    requires s.tables.beliefs == map[1 := Stated(project, 1, "a", 1, None)] && statement != ""
    ensures var input := Saying(project, statement, relation);
            Next(Plain(project), s, Ask(w, input, Some(1))) ==
            s.(readings := s.readings[w := Reading(input, Some(Stated(project, 1, "a", 1, None)))])
  {
    PlainNeverRefuses(project, statement, relation);
    assert IsCurrent(s.tables, project, "k", 1);
  }

  lemma CorrectionCommits(project: Option<string>, u: State) returns (v: State)
    requires u.tables.beliefs == map[1 := Stated(project, 1, "a", 1, None)]
    requires u.tables.versions.Keys == {(1, 1)} && u.tables.conflicts == map[]
    requires 0 in u.readings && u.readings[0] == Reading(Saying(project, "b", Correct), Some(Stated(project, 1, "a", 1, None)))
    ensures v == Next(Plain(project), u, Commit(0, 2, 2, 2)) && v.readings == u.readings - {0}
    ensures v.tables.beliefs.Keys == {1, 2} && v.tables.beliefs[1].status == Superseded
    ensures v.tables.beliefs[2] == Stated(project, 2, "b", 2, Some(1))
    ensures v.tables.versions.Keys == {(1, 1), (2, 1)} && v.tables.conflicts.Keys == {2}
  {
    PlainNeverRefuses(project, "b", Correct);
    v := Next(Plain(project), u, Commit(0, 2, 2, 2));
  }

  /** The state in front of the last commit. */
  lemma UpToLast(project: Option<string>, statement: string, relation: Relation) returns (v: State)
    requires statement != ""
    ensures var race := RaceOn(project, Saying(project, statement, relation));
            v == Run(Plain(project), race[..5]) && Run(Plain(project), race) == Next(Plain(project), v, race[5])
    ensures v.readings == map[1 := Reading(Saying(project, statement, relation), Some(Stated(project, 1, "a", 1, None)))]
    ensures v.tables.beliefs.Keys == {1, 2} && v.tables.beliefs[1].status == Superseded
    ensures v.tables.beliefs[2] == Stated(project, 2, "b", 2, Some(1))
    ensures v.tables.versions.Keys == {(1, 1), (2, 1)} && v.tables.conflicts.Keys == {2}
  {
    var s := FirstIsStated(project);
    Reads(project, s, 1, statement, relation);
    var one := Next(Plain(project), s, Ask(1, Saying(project, statement, relation), Some(1)));
    Reads(project, one, 0, "b", Correct);
    var two := Next(Plain(project), one, Ask(0, Saying(project, "b", Correct), Some(1)));
    v := CorrectionCommits(project, two);
    RaceRuns(project, Saying(project, statement, relation));
  }

  lemma RaceRuns(project: Option<string>, first: Input)
    ensures var race, env := RaceOn(project, first), Plain(project);
            && Run(env, race[..5]) == Next(env, Next(env, Next(env, Run(env, [race[0], race[1]]), race[2]), race[3]), race[4])
            && Run(env, race) == Next(env, Run(env, race[..5]), race[5])
  {
    var race := RaceOn(project, first);
    var two := [race[0], race[1]];
    var three := two + [race[2]];
    var four := three + [race[3]];
    assert race[..5] == four + [race[4]] && race == race[..5] + [race[5]];
    RunOne(Plain(project), two, race[2]);
    RunOne(Plain(project), three, race[3]);
    RunOne(Plain(project), four, race[4]);
    RunOne(Plain(project), race[..5], race[5]);
  }

  lemma OtherCorrectionCommits(v: State)
    requires v.tables.beliefs.Keys == {1, 2} && v.tables.beliefs[1].status == Superseded
    requires v.tables.versions.Keys == {(1, 1), (2, 1)} && v.tables.conflicts.Keys == {2}
    requires 1 in v.readings && v.readings[1] == Reading(Saying(None, "c", Correct), Some(Stated(None, 1, "a", 1, None)))
    ensures Next(Plain(None), v, Commit(1, 3, 3, 3)).tables.beliefs == v.tables.beliefs[3 := Stated(None, 3, "c", 3, Some(1))]
  {
    PlainNeverRefuses(None, "c", Correct);
  }

  /** Outside a project the index binds nothing: two racing corrections of one belief both stay active, and each says
      it replaced the same belief. */
  lemma ProjectlessCorrectionsFork()
    ensures var t := Run(Plain(None), RaceOn(None, Saying(None, "c", Correct))).tables;
            && 2 in t.beliefs && t.beliefs[2] == Stated(None, 2, "b", 2, Some(1))
            && 3 in t.beliefs && t.beliefs[3] == Stated(None, 3, "c", 3, Some(1))
            && Forked(t, None, "k")
  {
    var v := UpToLast(None, "c", Correct);
    OtherCorrectionCommits(v);
    var t := Run(Plain(None), RaceOn(None, Saying(None, "c", Correct))).tables;
    assert ActiveUnder(t, None, "k", 2) && ActiveUnder(t, None, "k", 3);
  }

  /* ---------- reinforcing what is no longer current ---------- */

  /** A reinforcement does not look at the status: when it goes through, it returns the belief as it stands, and that is
      an active one exactly when the belief read has not been superseded meanwhile. */
  lemma ReinforcedIsActiveIff(env: Env, t: Tables, r: Reading, now: int, id: Id, conflictId: Id)
    requires IdsFit(t) && VersionsExact(t) && ReadingSound(env, t, r) && Restates(env, r)
    requires r.seen.value.version == t.beliefs[r.seen.value.beliefId].version
    ensures var done, b := Committed(env, t, r, now, id, conflictId), t.beliefs[r.seen.value.beliefId];
            && done.1.Ok? && done.1.belief.beliefId == b.beliefId && done.0.beliefs[b.beliefId] == done.1.belief
            && done.1.belief.version == b.version + 1
            && (done.1.belief.status == Active <==> b.status == Active)
  {
    ReinforcementIsTimely(env, t, r, now);
  }

  /** Such a run exists within a project too: the belief is corrected between the read and the reinforcement. */
  lemma SupersededIsReinforced()
    ensures var race := RaceOn(Some("p"), Saying(Some("p"), "a", Relation.Reinforce));
            var v := Run(Plain(Some("p")), race[..5]);
            && 1 in v.readings && Writable(Plain(Some("p")), v.tables, v.readings[1])
            && var done := Committed(Plain(Some("p")), v.tables, v.readings[1], 3, 3, 3);
               done.1.Ok? && done.1.belief.beliefId == 1 && done.1.belief.status == Superseded
  {
    var v := UpToLast(Some("p"), "a", Relation.Reinforce);
    PlainNeverRefuses(Some("p"), "a", Relation.Reinforce);
    RunKeeps(Plain(Some("p")), RaceOn(Some("p"), Saying(Some("p"), "a", Relation.Reinforce))[..5]);
  }
}
