/** What every sequence of governed belief calls keeps. */
module BeliefHistory {
  import opened Options
  import opened BeliefGovernance

  /* ---------- rows ---------- */

  lemma {:induction false} WithEvidenceRows(env: Env, rows: map<(Id, Id, EvidenceType), EvidenceRow>, id: Id,
                                            evidence: seq<Id>, kind: EvidenceType, now: int)
    requires forall e | e in evidence :: env.findEvidence(e).Some?
    ensures var after := WithEvidence(env, rows, id, evidence, kind, now);
            && (forall k :: k in after <==> k in rows || (k.0 == id && k.1 in evidence && k.2 == kind))
            && (forall k | k in rows :: after[k] == rows[k])
            && (forall k | k in after && k !in rows :: env.findEvidence(k.1).Some?
                                                       && after[k] == EvidenceRow(RoleOf(env.findEvidence(k.1).value), now))
    decreases |evidence|
  {
    if evidence != [] {
      var init := evidence[..|evidence| - 1];
      WithEvidenceRows(env, rows, id, init, kind, now);
      assert evidence == init + [evidence[|evidence| - 1]];
    }
  }

  /** Evidence stays sound when items that passed the checks are added to a belief of the same scope. */
  lemma EvidenceGrows(env: Env, t: Tables, after: Tables, input: Input, id: Id, kind: EvidenceType, now: int)
    requires EvidenceSound(env, t) && Refusal(env, input).None?
    requires after.evidence == WithEvidence(env, t.evidence, id, input.evidence, kind, now)
    requires after.beliefs.Keys == t.beliefs.Keys + {id} && after.beliefs[id].projectId == input.projectId
    requires forall i | i in t.beliefs :: after.beliefs[i].projectId == t.beliefs[i].projectId
                                          && after.beliefs[i].ownership == t.beliefs[i].ownership
    requires id !in t.beliefs ==> after.beliefs[id].ownership == input.ownership
    ensures EvidenceSound(env, after)
  {
    WithEvidenceRows(env, t.evidence, id, input.evidence, kind, now);
    forall k | k in after.evidence
      ensures EvidenceRowSound(env, after, k)
    {
      if k in t.evidence {
        assert EvidenceRowSound(env, t, k);
      }
    }
    forall i | i in after.beliefs
      ensures HasEvidence(after, i)
    {
      if i in t.beliefs {
        assert HasEvidence(t, i);
        var k :| k in t.evidence && k.0 == i;
        assert k in after.evidence;
        if t.beliefs[i].ownership == User {
          var u :| u in t.evidence && u.0 == i && t.evidence[u].role == "user";
          assert u in after.evidence && after.evidence[u].role == "user";
        }
      } else {
        NewBeliefHasEvidence(env, t, after, input, id, kind, now);
      }
    }
  }

  lemma NewBeliefHasEvidence(env: Env, t: Tables, after: Tables, input: Input, id: Id, kind: EvidenceType, now: int)
    requires EvidenceSound(env, t) && Refusal(env, input).None? && id !in t.beliefs
    requires after.evidence == WithEvidence(env, t.evidence, id, input.evidence, kind, now)
    requires id in after.beliefs && after.beliefs[id].ownership == input.ownership
    ensures HasEvidence(after, id)
  {
    WithEvidenceRows(env, t.evidence, id, input.evidence, kind, now);
    assert (id, input.evidence[0], kind) in after.evidence;
    if input.ownership == User {
      var e :| e in input.evidence && env.findEvidence(e).value.role == Some("user");
      var k := (id, e, kind);
      NoRowAhead(env, t, k);
      assert k in after.evidence && after.evidence[k].role == "user";
    }
  }

  lemma NoRowAhead(env: Env, t: Tables, k: (Id, Id, EvidenceType))
    requires EvidenceSound(env, t) && k.0 !in t.beliefs
    ensures k !in t.evidence
  {
    assert k in t.evidence ==> EvidenceRowSound(env, t, k);
  }

  /* ---------- chains ---------- */

  /** A chain survives a step that keeps the links of its members and adds no settled belief under its key. */
  lemma ChainKept(t: Tables, after: Tables, project: Option<string>, key: string, chain: seq<Id>)
    requires IsChain(t, project, key, chain) && t.beliefs.Keys <= after.beliefs.Keys
    requires forall i | i in t.beliefs && Under(t.beliefs[i], project, key) :: SameLinks(t.beliefs[i], after.beliefs[i])
    requires forall i | i in after.beliefs && Under(after.beliefs[i], project, key) && after.beliefs[i].status != PossibleConflict ::
               i in t.beliefs && Under(t.beliefs[i], project, key)
    ensures IsChain(after, project, key, chain)
  {
    forall i | 0 <= i < |chain| - 1
      ensures Handover(after.beliefs[chain[i]], after.beliefs[chain[i + 1]])
    {
      assert Handover(t.beliefs[chain[i]], t.beliefs[chain[i + 1]]);
    }
  }

  predicate SameLinks(b: Belief, c: Belief) {
    && c.beliefId == b.beliefId && c.projectId == b.projectId && c.key == b.key && c.status == b.status
    && c.validFrom == b.validFrom && c.validTo == b.validTo
    && c.supersedes == b.supersedes && c.supersededBy == b.supersededBy
  }

  lemma HasChainKept(t: Tables, after: Tables, project: Option<string>, key: string)
    requires HasChain(t, project, key) && t.beliefs.Keys <= after.beliefs.Keys
    requires forall i | i in t.beliefs && Under(t.beliefs[i], project, key) :: SameLinks(t.beliefs[i], after.beliefs[i])
    requires forall i | i in after.beliefs && Under(after.beliefs[i], project, key) && after.beliefs[i].status != PossibleConflict ::
               i in t.beliefs && Under(t.beliefs[i], project, key)
    ensures HasChain(after, project, key)
  {
    var chain :| IsChain(t, project, key, chain);
    ChainKept(t, after, project, key, chain);
  }

  /** One belief is new or rewritten under one key; every other key keeps its chain, and that key has one. */
  lemma OtherChainsKept(t: Tables, after: Tables, project: Option<string>, key: string, id: Id)
    requires ChainsExist(t) && after.beliefs.Keys == t.beliefs.Keys + {id}
    requires forall i | i in t.beliefs :: Under(t.beliefs[i], project, key) <==> Under(after.beliefs[i], project, key)
    requires forall i | i in t.beliefs && !Under(t.beliefs[i], project, key) :: after.beliefs[i] == t.beliefs[i]
    requires Under(after.beliefs[id], project, key) && HasChain(after, project, key)
    ensures ChainsExist(after)
  {
    forall i | i in after.beliefs
      ensures HasChain(after, after.beliefs[i].projectId, after.beliefs[i].key)
    {
      if Under(after.beliefs[i], project, key) {
      } else {
        assert i in t.beliefs && HasChain(t, t.beliefs[i].projectId, t.beliefs[i].key);
        HasChainKept(t, after, t.beliefs[i].projectId, t.beliefs[i].key);
      }
    }
  }

  lemma ChainInner(t: Tables, project: Option<string>, key: string, chain: seq<Id>, i: nat)
    requires IsChain(t, project, key, chain) && i < |chain| - 1
    ensures t.beliefs[chain[i]].status == Superseded
  {
    assert Handover(t.beliefs[chain[i]], t.beliefs[chain[i + 1]]);
  }

  /** The current belief is where the chain ends, so there is only one. */
  lemma CurrentEndsChain(t: Tables, project: Option<string>, key: string, chain: seq<Id>, id: Id)
    requires IsChain(t, project, key, chain)
    requires id in t.beliefs && Under(t.beliefs[id], project, key) && t.beliefs[id].status == Active
    ensures chain[|chain| - 1] == id
  {
    assert id in chain;
    var i :| 0 <= i < |chain| && chain[i] == id;
    if i < |chain| - 1 {
      ChainInner(t, project, key, chain, i);
      assert false;
    }
  }

  /** Correcting the current belief appends to its chain. */
  lemma ChainExtended(t: Tables, after: Tables, project: Option<string>, key: string, chain: seq<Id>, prior: Id, id: Id, now: int)
    requires IsChain(t, project, key, chain) && chain[|chain| - 1] == prior && id !in t.beliefs
    requires t.beliefs[prior].beliefId == prior
    requires after.beliefs.Keys == t.beliefs.Keys + {id}
    requires forall i | i in t.beliefs && i != prior :: after.beliefs[i] == t.beliefs[i]
    requires after.beliefs[prior] ==
             t.beliefs[prior].(status := Superseded, validTo := Some(now), supersededBy := Some(id), updatedAt := now)
    requires var b := after.beliefs[id];
             && Under(b, project, key) && b.beliefId == id && b.status == Active
             && b.supersedes == Some(prior) && b.supersededBy == None && b.validTo == None && b.validFrom == now
    ensures IsChain(after, project, key, chain + [id])
  {
    var longer := chain + [id];
    forall i | 0 <= i < |longer| - 1
      ensures Handover(after.beliefs[longer[i]], after.beliefs[longer[i + 1]])
    {
      if i < |chain| - 1 {
        assert Handover(t.beliefs[chain[i]], t.beliefs[chain[i + 1]]);
        assert chain[i] != chain[|chain| - 1];
      }
    }
    forall i | i in after.beliefs && Under(after.beliefs[i], project, key) && after.beliefs[i].status != PossibleConflict
      ensures i in longer
    {
      if i != id {
        assert i in t.beliefs && i in chain;
      }
    }
  }

  lemma NoChainWithoutCurrent(t: Tables, project: Option<string>, key: string)
    requires NoneCurrent(t, project, key)
    ensures !HasChain(t, project, key)
  {
    forall chain
      ensures !IsChain(t, project, key, chain)
    {
      NotAChain(t, project, key, chain);
    }
  }

  lemma NotAChain(t: Tables, project: Option<string>, key: string, chain: seq<Id>)
    requires NoneCurrent(t, project, key)
    ensures !IsChain(t, project, key, chain)
  {
  }

  /* ---------- versions and conflicts ---------- */

  /** Writing the next version of one belief keeps the version rows exact. */
  lemma VersionsGrow(t: Tables, after: Tables, id: Id, row: VersionRow)
    requires VersionsExact(t) && after.beliefs.Keys == t.beliefs.Keys + {id}
    requires forall i | i in t.beliefs && i != id ::
               after.beliefs[i].version == t.beliefs[i].version && after.beliefs[i].statement == t.beliefs[i].statement
    requires after.versions == t.versions[(id, after.beliefs[id].version) := row] && row.snapshot == after.beliefs[id]
    requires if id in t.beliefs
             then after.beliefs[id].version == t.beliefs[id].version + 1 && after.beliefs[id].statement == t.beliefs[id].statement
             else after.beliefs[id].version == 1
    ensures VersionsExact(after)
  {
    forall i, v: nat | i in after.beliefs && 1 <= v <= after.beliefs[i].version
      ensures (i, v) in after.versions && after.versions[(i, v)].snapshot.version == v
              && after.versions[(i, v)].snapshot.statement == after.beliefs[i].statement
    {
      if i != id || v != after.beliefs[id].version {
        assert i in t.beliefs && 1 <= v <= t.beliefs[i].version;
        assert (i, v) in t.versions;
      }
    }
  }

  lemma ConflictsKept(t: Tables, after: Tables, id: Id)
    requires ConflictsSound(t) && after.conflicts == t.conflicts && after.beliefs.Keys == t.beliefs.Keys + {id}
    requires forall i | i in t.beliefs :: SameLinks(t.beliefs[i], after.beliefs[i])
    requires id !in t.beliefs ==> after.beliefs[id].status != PossibleConflict
    ensures ConflictsSound(after)
  {
    forall c | c in after.conflicts
      ensures ConflictRowSound(after, c)
    {
      assert ConflictRowSound(t, c);
    }
    forall i | i in after.beliefs && after.beliefs[i].status == PossibleConflict
      ensures Awaits(after, i)
    {
      assert Awaits(t, i);
    }
  }

  /** A new belief with its conflict row: a correction supersedes `prior`, anything else waits beside it. */
  lemma ConflictsGrow(t: Tables, after: Tables, id: Id, prior: Id, conflictId: Id, row: ConflictRow)
    requires ConflictsSound(t) && id !in t.beliefs && prior in t.beliefs && conflictId !in t.conflicts
    requires after.beliefs.Keys == t.beliefs.Keys + {id} && after.conflicts == t.conflicts[conflictId := row]
    requires row.prior == prior && row.proposed == id
    requires forall i | i in t.beliefs && i != prior :: after.beliefs[i] == t.beliefs[i]
    requires t.beliefs[prior].supersededBy == None && t.beliefs[prior].status != PossibleConflict
    requires after.beliefs[prior].status != PossibleConflict
    requires if row.kind == CorrectsResolved
             then after.beliefs[prior].supersededBy == Some(id) && after.beliefs[id].status != PossibleConflict
             else after.beliefs[prior] == t.beliefs[prior]
    ensures ConflictsSound(after)
  {
    forall c | c in after.conflicts
      ensures ConflictRowSound(after, c)
    {
      if c != conflictId {
        assert ConflictRowSound(t, c);
      }
    }
    forall i | i in after.beliefs && after.beliefs[i].status == PossibleConflict
      ensures Awaits(after, i)
    {
      if i == id {
        assert conflictId in after.conflicts;
      } else {
        assert Awaits(t, i);
        var c :| c in t.conflicts && t.conflicts[c].proposed == i && t.conflicts[c].kind == ContradictsPending;
        assert c in after.conflicts && after.conflicts[c] == t.conflicts[c];
      }
    }
  }

  /* ---------- one call ---------- */

  /** What a reinforcement does to the tables. */
  ghost predicate Reinforces(env: Env, t: Tables, after: Tables, input: Input, now: int, id: Id)
    requires Refusal(env, input).None?
  {
    && id in t.beliefs && after.beliefs.Keys == t.beliefs.Keys
    && (forall i | i in t.beliefs && i != id :: after.beliefs[i] == t.beliefs[i])
    && SameLinks(t.beliefs[id], after.beliefs[id])
    && after.beliefs[id].ownership == t.beliefs[id].ownership && after.beliefs[id].statement == t.beliefs[id].statement
    && after.beliefs[id].version == t.beliefs[id].version + 1 && 0.0 <= after.beliefs[id].confidence <= 1.0
    && after.conflicts == t.conflicts
    && after.evidence == WithEvidence(env, t.evidence, id, input.evidence, Supports, now)
    && exists row: VersionRow :: row.snapshot == after.beliefs[id] && after.versions == t.versions[(id, after.beliefs[id].version) := row]
  }

  lemma ReinforcedShape(env: Env, t: Tables, input: Input, now: int, id: Id)
    requires Refusal(env, input).None? && id in t.beliefs && (id, t.beliefs[id].version + 1) !in t.versions
    ensures Reinforces(env, t, Reinforced(env, t, input, now, id).0, input, now, id)
    ensures Reinforced(env, t, input, now, id).1.Ok?
  {
    var after := Reinforced(env, t, input, now, id).0;
    var row := after.versions[(id, after.beliefs[id].version)];
    assert row.snapshot == after.beliefs[id] && after.versions == t.versions[(id, after.beliefs[id].version) := row];
  }

  lemma NoVersionAhead(t: Tables, id: Id)
    requires VersionsExact(t) && id in t.beliefs
    ensures (id, t.beliefs[id].version + 1) !in t.versions
  {
  }

  lemma ReinforcedRows(env: Env, t: Tables, after: Tables, input: Input, now: int, id: Id)
    requires Refusal(env, input).None? && Reinforces(env, t, after, input, now, id) && RowsSound(env, t)
    ensures RowsSound(env, after)
  {
  }

  lemma ReinforcedChains(env: Env, t: Tables, after: Tables, input: Input, now: int, id: Id)
    requires Refusal(env, input).None? && Reinforces(env, t, after, input, now, id) && ChainsExist(t)
    ensures ChainsExist(after)
  {
    ChainsSurvive(t, after, id);
  }

  lemma ReinforcedEvidence(env: Env, t: Tables, after: Tables, input: Input, now: int, id: Id)
    requires Refusal(env, input).None? && Reinforces(env, t, after, input, now, id) && EvidenceSound(env, t)
    requires t.beliefs[id].projectId == input.projectId
    ensures EvidenceSound(env, after)
  {
    EvidenceGrows(env, t, after, input, id, Supports, now);
  }

  lemma ReinforcedVersions(env: Env, t: Tables, after: Tables, input: Input, now: int, id: Id)
    requires Refusal(env, input).None? && Reinforces(env, t, after, input, now, id) && VersionsExact(t)
    ensures VersionsExact(after)
  {
    var row: VersionRow :| row.snapshot == after.beliefs[id] && after.versions == t.versions[(id, after.beliefs[id].version) := row];
    VersionsGrow(t, after, id, row);
  }

  lemma ReinforcedConflicts(env: Env, t: Tables, after: Tables, input: Input, now: int, id: Id)
    requires Refusal(env, input).None? && Reinforces(env, t, after, input, now, id) && ConflictsSound(t)
    ensures ConflictsSound(after)
  {
    ConflictsKept(t, after, id);
  }

  lemma ReinforcedKeepsSound(env: Env, t: Tables, input: Input, now: int, id: Id)
    requires Sound(env, t) && Refusal(env, input).None?
    requires id in t.beliefs && t.beliefs[id].projectId == input.projectId
    ensures Sound(env, Reinforced(env, t, input, now, id).0)
    ensures Reinforced(env, t, input, now, id).1.Ok?
  {
    NoVersionAhead(t, id);
    ReinforcedShape(env, t, input, now, id);
    SoundAfterReinforce(env, t, Reinforced(env, t, input, now, id).0, input, now, id);
  }

  lemma SoundAfterReinforce(env: Env, t: Tables, after: Tables, input: Input, now: int, id: Id)
    requires Sound(env, t) && Refusal(env, input).None? && Reinforces(env, t, after, input, now, id)
    requires t.beliefs[id].projectId == input.projectId
    ensures Sound(env, after)
  {
    ReinforcedRows(env, t, after, input, now, id);
    ReinforcedChains(env, t, after, input, now, id);
    ReinforcedEvidence(env, t, after, input, now, id);
    ReinforcedVersions(env, t, after, input, now, id);
    ReinforcedConflicts(env, t, after, input, now, id);
  }

  lemma ChainsSurvive(t: Tables, after: Tables, id: Id)
    requires ChainsExist(t) && id in t.beliefs && after.beliefs.Keys == t.beliefs.Keys
    requires forall i | i in t.beliefs :: SameLinks(t.beliefs[i], after.beliefs[i])
    ensures ChainsExist(after)
  {
    forall i | i in after.beliefs
      ensures HasChain(after, after.beliefs[i].projectId, after.beliefs[i].key)
    {
      assert HasChain(t, t.beliefs[i].projectId, t.beliefs[i].key);
      HasChainKept(t, after, t.beliefs[i].projectId, t.beliefs[i].key);
    }
  }

  /** What an insertion does to the beliefs, apart from the new one: nothing, or closing the corrected one. */
  ghost predicate Closes(t: Tables, after: Tables, now: int, id: Id, closed: Option<Id>) {
    && id !in t.beliefs && after.beliefs.Keys == t.beliefs.Keys + {id}
    && (forall i | i in t.beliefs && closed != Some(i) :: after.beliefs[i] == t.beliefs[i])
    && (closed.Some? ==>
          && closed.value in t.beliefs
          && after.beliefs[closed.value] == t.beliefs[closed.value].(status := Superseded, validTo := Some(now),
                                                                  supersededBy := Some(id), updatedAt := now))
  }

  /** What an insertion does to the tables. */
  ghost predicate Inserts(env: Env, t: Tables, after: Tables, input: Input, now: int, id: Id, conflictId: Id,
                          current: Option<Id>, closed: Option<Id>)
    requires Refusal(env, input).None?
  {
    var kind := if RelationOf(input) == Contradict then Contradicts else Supports;
    && closed == (if RelationOf(input) == Correct then current else None)
    && Closes(t, after, now, id, closed)
    && var b := after.beliefs[id];
    && b.beliefId == id && b.projectId == input.projectId && b.key == env.normalizeKey(input.key)
    && b.ownership == input.ownership && b.version == 1 && 0.0 <= b.confidence <= 1.0
    && b.status == (if current.Some? && closed.None? then PossibleConflict else Active)
    && b.supersedes == closed && b.supersededBy == None && b.validTo == None && b.validFrom == now
    && (exists row: VersionRow :: row.snapshot == b && after.versions == t.versions[(id, 1) := row])
    && after.evidence == WithEvidence(env, t.evidence, id, input.evidence, kind, now)
    && (current.None? ==> after.conflicts == t.conflicts)
    && (current.Some? ==>
          && current.value in t.beliefs && conflictId !in t.conflicts
          && exists row: ConflictRow ::
               && row.prior == current.value && row.proposed == id && (row.kind == CorrectsResolved <==> closed.Some?)
               && after.conflicts == t.conflicts[conflictId := row])
  }

  lemma InsertedShape(env: Env, t: Tables, input: Input, now: int, id: Id, conflictId: Id, current: Option<Id>)
    requires Refusal(env, input).None? && (current.Some? ==> current.value in t.beliefs)
    requires Inserted(env, t, input, now, id, conflictId, current).1.Ok?
    ensures Inserts(env, t, Inserted(env, t, input, now, id, conflictId, current).0, input, now, id, conflictId, current,
                    if RelationOf(input) == Correct then current else None)
  {
    var after := Inserted(env, t, input, now, id, conflictId, current).0;
    var row := after.versions[(id, 1)];
    assert row.snapshot == after.beliefs[id] && after.versions == t.versions[(id, 1) := row];
    if current.Some? {
      var conflict := after.conflicts[conflictId];
      assert conflict.prior == current.value && after.conflicts == t.conflicts[conflictId := conflict];
    }
  }

  lemma InsertedChains(t: Tables, after: Tables, now: int, id: Id, current: Option<Id>, closed: Option<Id>,
                       project: Option<string>, key: string)
    requires ChainsExist(t) && Closes(t, after, now, id, closed) && Under(after.beliefs[id], project, key)
    requires after.beliefs[id].beliefId == id && after.beliefs[id].supersededBy == None
    requires after.beliefs[id].validTo == None && after.beliefs[id].validFrom == now && after.beliefs[id].supersedes == closed
    requires after.beliefs[id].status == (if current.Some? && closed.None? then PossibleConflict else Active)
    requires closed.Some? ==> closed == current
    requires match current case Some(c) => IsCurrent(t, project, key, c) && t.beliefs[c].beliefId == c
                           case None => NoneCurrent(t, project, key)
    ensures ChainsExist(after)
  {
    if current.None? {
      NoneUnder(t, project, key);
      assert IsChain(after, project, key, [id]);
    } else {
      assert HasChain(t, t.beliefs[current.value].projectId, t.beliefs[current.value].key);
      if closed.Some? {
        var chain :| IsChain(t, project, key, chain);
        CurrentEndsChain(t, project, key, chain, current.value);
        ChainExtended(t, after, project, key, chain, current.value, id, now);
      } else {
        HasChainKept(t, after, project, key);
      }
    }
    assert HasChain(after, project, key);
    OtherChainsKept(t, after, project, key, id);
  }

  lemma NoneUnder(t: Tables, project: Option<string>, key: string)
    requires ChainsExist(t) && NoneCurrent(t, project, key)
    ensures forall i | i in t.beliefs :: !Under(t.beliefs[i], project, key)
  {
    forall i | i in t.beliefs
      ensures !Under(t.beliefs[i], project, key)
    {
      assert HasChain(t, t.beliefs[i].projectId, t.beliefs[i].key);
      NoChainWithoutCurrent(t, project, key);
    }
  }

  lemma InsertedRows(env: Env, t: Tables, after: Tables, input: Input, now: int, id: Id, conflictId: Id,
                     current: Option<Id>, closed: Option<Id>)
    requires Refusal(env, input).None? && Inserts(env, t, after, input, now, id, conflictId, current, closed)
    requires RowsSound(env, t) && env.normalizeKey(env.normalizeKey(input.key)) == env.normalizeKey(input.key)
    requires closed.Some? ==> t.beliefs[closed.value].status == Active
    ensures RowsSound(env, after)
  {
  }

  lemma InsertedEvidence(env: Env, t: Tables, after: Tables, input: Input, now: int, id: Id, conflictId: Id,
                         current: Option<Id>, closed: Option<Id>)
    requires Refusal(env, input).None? && Inserts(env, t, after, input, now, id, conflictId, current, closed)
    requires EvidenceSound(env, t)
    ensures EvidenceSound(env, after)
  {
    EvidenceGrows(env, t, after, input, id, if RelationOf(input) == Contradict then Contradicts else Supports, now);
  }

  lemma InsertedVersions(env: Env, t: Tables, after: Tables, input: Input, now: int, id: Id, conflictId: Id,
                         current: Option<Id>, closed: Option<Id>)
    requires Refusal(env, input).None? && Inserts(env, t, after, input, now, id, conflictId, current, closed)
    requires VersionsExact(t)
    ensures VersionsExact(after)
  {
    var row: VersionRow :| row.snapshot == after.beliefs[id] && after.versions == t.versions[(id, 1) := row];
    VersionsGrow(t, after, id, row);
  }

  lemma InsertedConflicts(env: Env, t: Tables, after: Tables, input: Input, now: int, id: Id, conflictId: Id,
                          current: Option<Id>, closed: Option<Id>)
    requires Refusal(env, input).None? && Inserts(env, t, after, input, now, id, conflictId, current, closed)
    requires ConflictsSound(t)
    requires current.Some? ==> t.beliefs[current.value].supersededBy == None && t.beliefs[current.value].status == Active
    ensures ConflictsSound(after)
  {
    if current.Some? {
      var row: ConflictRow :|
        && row.prior == current.value && row.proposed == id && (row.kind == CorrectsResolved <==> closed.Some?)
        && after.conflicts == t.conflicts[conflictId := row];
      ConflictsGrow(t, after, id, current.value, conflictId, row);
    } else {
      ConflictsKept(t, after, id);
    }
  }

  lemma SoundAfterInsert(env: Env, t: Tables, after: Tables, input: Input, now: int, id: Id, conflictId: Id,
                         current: Option<Id>, closed: Option<Id>)
    requires Sound(env, t) && Refusal(env, input).None? && KeysSettle(env) && FoundCurrent(env, t, input, current)
    requires Inserts(env, t, after, input, now, id, conflictId, current, closed)
    ensures Sound(env, after)
  {
    var key := env.normalizeKey(input.key);
    assert env.normalizeKey(key) == key;
    if current.Some? {
      CurrentIsLast(t, input.projectId, key, current.value);
    }
    InsertedRows(env, t, after, input, now, id, conflictId, current, closed);
    InsertedChains(t, after, now, id, current, closed, input.projectId, key);
    InsertedEvidence(env, t, after, input, now, id, conflictId, current, closed);
    InsertedVersions(env, t, after, input, now, id, conflictId, current, closed);
    InsertedConflicts(env, t, after, input, now, id, conflictId, current, closed);
  }

  lemma InsertedKeepsSound(env: Env, t: Tables, input: Input, now: int, id: Id, conflictId: Id, current: Option<Id>)
    requires Sound(env, t) && Refusal(env, input).None? && KeysSettle(env)
    requires FoundCurrent(env, t, input, current)
    ensures Sound(env, Inserted(env, t, input, now, id, conflictId, current).0)
  {
    if Inserted(env, t, input, now, id, conflictId, current).1.Ok? {
      InsertedShape(env, t, input, now, id, conflictId, current);
      SoundAfterInsert(env, t, Inserted(env, t, input, now, id, conflictId, current).0, input, now, id, conflictId, current,
                       if RelationOf(input) == Correct then current else None);
    }
  }

  lemma CurrentIsLast(t: Tables, project: Option<string>, key: string, id: Id)
    requires ChainsExist(t) && IsCurrent(t, project, key, id)
    ensures t.beliefs[id].supersededBy == None && t.beliefs[id].validTo == None
    ensures forall i | i in t.beliefs && Under(t.beliefs[i], project, key) && t.beliefs[i].status == Active :: i == id
  {
    assert HasChain(t, t.beliefs[id].projectId, t.beliefs[id].key);
    var chain :| IsChain(t, project, key, chain);
    CurrentEndsChain(t, project, key, chain, id);
    forall i | i in t.beliefs && Under(t.beliefs[i], project, key) && t.beliefs[i].status == Active
      ensures i == id
    {
      CurrentEndsChain(t, project, key, chain, i);
    }
  }

  /** Whatever the call, the tables stay sound; a refused or colliding call leaves them as they were. */
  lemma AppliedKeepsSound(env: Env, t: Tables, input: Input, now: int, id: Id, conflictId: Id, current: Option<Id>)
    requires Sound(env, t) && KeysSettle(env) && FoundCurrent(env, t, input, current)
    ensures Sound(env, Applied(env, t, input, now, id, conflictId, current).0)
    ensures Applied(env, t, input, now, id, conflictId, current).1.Err? ==>
              Applied(env, t, input, now, id, conflictId, current).0 == t
  {
    if Refusal(env, input).None? {
      if current.Some? {
        ReinforcedKeepsSound(env, t, input, now, current.value);
      }
      InsertedKeepsSound(env, t, input, now, id, conflictId, current);
    }
  }

  /* ---------- every run ---------- */

  datatype Call = Call(input: Input, now: int, id: Id, conflictId: Id)

  ghost predicate Step(env: Env, t: Tables, c: Call, after: Tables) {
    exists current :: FoundCurrent(env, t, c.input, current)
                      && after == Applied(env, t, c.input, c.now, c.id, c.conflictId, current).0
  }

  /** `states` are the tables before, between and after the calls of a run. */
  ghost predicate IsRun(env: Env, calls: seq<Call>, states: seq<Tables>) {
    && |states| == |calls| + 1
    && states[0] == Tables(map[], map[], map[], map[])
    && forall i | 0 <= i < |calls| :: Step(env, states[i], calls[i], states[i + 1])
  }

  lemma {:induction false} RunKeepsSound(env: Env, calls: seq<Call>, states: seq<Tables>, n: nat)
    requires IsRun(env, calls, states) && KeysSettle(env) && n <= |calls|
    ensures Sound(env, states[n])
  {
    if n > 0 {
      RunKeepsSound(env, calls, states, n - 1);
      var t, c := states[n - 1], calls[n - 1];
      assert Step(env, t, c, states[n]);
      var current :| FoundCurrent(env, t, c.input, current)
                     && states[n] == Applied(env, t, c.input, c.now, c.id, c.conflictId, current).0;
      AppliedKeepsSound(env, t, c.input, c.now, c.id, c.conflictId, current);
    }
  }

  /** After every run, a key with any belief has exactly one active one. */
  lemma ExactlyOneActive(env: Env, calls: seq<Call>, states: seq<Tables>, n: nat, id: Id)
    requires IsRun(env, calls, states) && KeysSettle(env) && n <= |calls| && id in states[n].beliefs
    ensures var t := states[n];
            var b := t.beliefs[id];
            exists a :: IsCurrent(t, b.projectId, b.key, a)
                        && forall i | i in t.beliefs && Under(t.beliefs[i], b.projectId, b.key) && t.beliefs[i].status == Active :: i == a
  {
    RunKeepsSound(env, calls, states, n);
    var t := states[n];
    var b := t.beliefs[id];
    assert HasChain(t, b.projectId, b.key);
    var chain :| IsChain(t, b.projectId, b.key, chain);
    var a := chain[|chain| - 1];
    forall i | i in t.beliefs && Under(t.beliefs[i], b.projectId, b.key) && t.beliefs[i].status == Active
      ensures i == a
    {
      CurrentEndsChain(t, b.projectId, b.key, chain, i);
    }
    assert IsCurrent(t, b.projectId, b.key, a);
  }

  /** Nothing recorded is lost: beliefs keep their statement and start, and version rows are never rewritten. */
  ghost predicate Remembers(t: Tables, after: Tables) {
    && (forall i | i in t.beliefs :: i in after.beliefs && after.beliefs[i].statement == t.beliefs[i].statement
                                     && after.beliefs[i].validFrom == t.beliefs[i].validFrom)
    && (forall k | k in t.versions :: k in after.versions && after.versions[k] == t.versions[k])
  }

  lemma AppliedRemembers(env: Env, t: Tables, c: Call, current: Option<Id>)
    requires FoundCurrent(env, t, c.input, current)
    ensures Remembers(t, Applied(env, t, c.input, c.now, c.id, c.conflictId, current).0)
  {
    if Refusal(env, c.input).None? {
      InsertedRemembers(env, t, c, current);
      if current.Some? {
        ReinforcedRemembers(env, t, c, current.value);
      }
    }
  }

  lemma InsertedRemembers(env: Env, t: Tables, c: Call, current: Option<Id>)
    requires Refusal(env, c.input).None? && (current.Some? ==> current.value in t.beliefs)
    ensures Remembers(t, Inserted(env, t, c.input, c.now, c.id, c.conflictId, current).0)
  {
  }

  lemma ReinforcedRemembers(env: Env, t: Tables, c: Call, id: Id)
    requires Refusal(env, c.input).None? && id in t.beliefs
    ensures Remembers(t, Reinforced(env, t, c.input, c.now, id).0)
  {
  }

  lemma {:induction false} RunRemembers(env: Env, calls: seq<Call>, states: seq<Tables>, m: nat, n: nat)
    requires IsRun(env, calls, states) && m <= n <= |calls|
    ensures Remembers(states[m], states[n])
    decreases n
  {
    if m < n {
      RunRemembers(env, calls, states, m, n - 1);
      var t, c := states[n - 1], calls[n - 1];
      assert Step(env, t, c, states[n]);
      var current :| FoundCurrent(env, t, c.input, current)
                     && states[n] == Applied(env, t, c.input, c.now, c.id, c.conflictId, current).0;
      AppliedRemembers(env, t, c, current);
    }
  }

  /* ---------- time ---------- */

  /** No belief starts after `clock`, and a supersession never ends before it starts. */
  ghost predicate Timely(t: Tables, clock: int) {
    forall id | id in t.beliefs ::
      t.beliefs[id].validFrom <= clock
      && (t.beliefs[id].validTo.Some? ==> t.beliefs[id].validFrom <= t.beliefs[id].validTo.value)
  }

  ghost predicate NonDecreasing(calls: seq<Call>) {
    forall i, j | 0 <= i < j < |calls| :: calls[i].now <= calls[j].now
  }

  lemma {:induction false} RunKeepsTimely(env: Env, calls: seq<Call>, states: seq<Tables>, n: nat, clock: int)
    requires IsRun(env, calls, states) && n <= |calls| && NonDecreasing(calls)
    requires forall i | 0 <= i < n :: calls[i].now <= clock
    ensures Timely(states[n], clock)
  {
    if n > 0 {
      var t, c := states[n - 1], calls[n - 1];
      RunKeepsTimely(env, calls, states, n - 1, c.now);
      assert Step(env, t, c, states[n]);
      var current :| FoundCurrent(env, t, c.input, current)
                     && states[n] == Applied(env, t, c.input, c.now, c.id, c.conflictId, current).0;
      AppliedKeepsTimely(env, t, c, current, clock);
    }
  }

  lemma AppliedKeepsTimely(env: Env, t: Tables, c: Call, current: Option<Id>, clock: int)
    requires Timely(t, c.now) && c.now <= clock && FoundCurrent(env, t, c.input, current)
    ensures Timely(Applied(env, t, c.input, c.now, c.id, c.conflictId, current).0, clock)
  {
  }

  predicate ValidAt(b: Belief, time: int) {
    b.validFrom <= time && (b.validTo.None? || time < b.validTo.value)
  }

  /** With clocks that never run backwards the chain's validity intervals tile time: from its first belief
      on, exactly one belief of the chain is valid at every moment. */
  lemma ValidityTilesTime(env: Env, calls: seq<Call>, states: seq<Tables>, project: Option<string>, key: string,
                          chain: seq<Id>, time: int)
    requires IsRun(env, calls, states) && KeysSettle(env) && NonDecreasing(calls)
    requires IsChain(states[|calls|], project, key, chain)
    requires states[|calls|].beliefs[chain[0]].validFrom <= time
    ensures ValidOnce(states[|calls|], chain, time)
  {
    RunKeepsTimely(env, calls, states, |calls|, if calls == [] then 0 else calls[|calls| - 1].now);
    ChainTilesTime(states[|calls|], project, key, chain, time);
  }

  /** Exactly one belief of the chain is valid at the time. */
  ghost predicate ValidOnce(t: Tables, chain: seq<Id>, time: int) {
    && (forall i | 0 <= i < |chain| :: chain[i] in t.beliefs)
    && exists i :: 0 <= i < |chain| && ValidAt(t.beliefs[chain[i]], time)
                   && forall j | 0 <= j < |chain| && j != i :: !ValidAt(t.beliefs[chain[j]], time)
  }

  lemma ChainTilesTime(t: Tables, project: Option<string>, key: string, chain: seq<Id>, time: int)
    requires IsChain(t, project, key, chain) && Ordered(t, chain)
    requires t.beliefs[chain[0]].validFrom <= time
    ensures ValidOnce(t, chain, time)
  {
    var i := ValidOne(t, project, key, chain, time, |chain| - 1);
    forall j | 0 <= j < |chain| && j != i
      ensures !ValidAt(t.beliefs[chain[j]], time)
    {
      if j < i {
        StartsRise(t, project, key, chain, j + 1, i);
        assert Handover(t.beliefs[chain[j]], t.beliefs[chain[j + 1]]);
      } else {
        assert Handover(t.beliefs[chain[i]], t.beliefs[chain[i + 1]]);
        StartsRise(t, project, key, chain, i + 1, j);
      }
    }
  }

  ghost predicate Ordered(t: Tables, chain: seq<Id>) {
    forall i | 0 <= i < |chain| :: chain[i] in t.beliefs &&
      (t.beliefs[chain[i]].validTo.Some? ==> t.beliefs[chain[i]].validFrom <= t.beliefs[chain[i]].validTo.value)
  }

  lemma {:induction false} StartsRise(t: Tables, project: Option<string>, key: string, chain: seq<Id>, i: nat, j: nat)
    requires IsChain(t, project, key, chain) && Ordered(t, chain) && i <= j < |chain|
    ensures t.beliefs[chain[i]].validFrom <= t.beliefs[chain[j]].validFrom
    decreases j
  {
    if i < j {
      StartsRise(t, project, key, chain, i, j - 1);
      assert Handover(t.beliefs[chain[j - 1]], t.beliefs[chain[j]]);
    }
  }

  lemma {:induction false} ValidOne(t: Tables, project: Option<string>, key: string, chain: seq<Id>, time: int, n: nat)
    returns (i: nat)
    requires IsChain(t, project, key, chain) && Ordered(t, chain) && n < |chain|
    requires t.beliefs[chain[0]].validFrom <= time
    requires n < |chain| - 1 ==> time < t.beliefs[chain[n + 1]].validFrom
    ensures i <= n && ValidAt(t.beliefs[chain[i]], time)
  {
    if t.beliefs[chain[n]].validFrom <= time {
      i := n;
      if n < |chain| - 1 {
        assert Handover(t.beliefs[chain[n]], t.beliefs[chain[n + 1]]);
      }
    } else {
      i := ValidOne(t, project, key, chain, time, n - 1);
    }
  }
}
