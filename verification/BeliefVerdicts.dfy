/** What an upsert does, in terms of how strong the claims are: who is retired, who is turned away, who stands beside. */
module BeliefVerdicts {
  import opened BeliefRevision
  import opened BeliefStore
  import opened BeliefStrength
  import opened Options

  /** A live row under the candidate's key with another value. */
  predicate Contrary(rows: seq<Belief>, c: Candidate, i: nat) {
    Rival(rows, c, i) && rows[i].value != c.value
  }

  function MarginOver(rows: seq<Belief>, c: Candidate, i: nat, now: int, decay: Decay): real
    requires i < |rows|
  {
    Margin(ClaimOf(c, now), rows[i].claim, now, decay)
  }

  ghost function Rivals(rows: seq<Belief>, c: Candidate): (r: seq<nat>)
    ensures InRange(rows, r) && forall i: nat :: i in r <==> Rival(rows, c, i)
  {
    RivalsAreLive(rows, c);
    LiveOf(rows, FindByCanonicalKey(rows, ToCanonicalKey(c), c.project))
  }

  /* ---------- the claim that is weighed, and the row that is written ---------- */

  /** What a candidate leaves open: its trust is its source's, and it holds from now on. */
  lemma OpenFieldsAreFilled(c: Candidate, now: int)
    ensures var claim := ClaimOf(c, now);
            && claim.confidence == c.confidence && claim.source == c.source && claim.scope == c.scope && claim.pred == c.pred
            && (c.validFrom.Some? ==> claim.validFrom == c.validFrom.value) && (c.validFrom.None? ==> claim.validFrom == now)
            && (c.trust.Some? ==> claim.trust == c.trust.value)
            && (c.trust.None? ==> 100.0 * claim.trust == TrustPercent(c.source))
  {
  }

  /** An upsert that is not turned away records the candidate as one new active row that nothing has replaced. */
  lemma RecordsTheCandidate(rows: seq<Belief>, c: Candidate, now: int, decay: Decay)
    ensures var after := Upserted(rows, c, now, decay);
            if Decided(rows, c, now, decay).RejectIncoming? then after == rows
            else
              && |after| == |rows| + 1
              && var b := after[|rows|];
                 && b.project == c.project && b.key == Key(c.subject, c.pred, c.scope, c.discriminator)
                 && b.claim == ClaimOf(c, now) && b.value == c.value && b.validTo == c.validTo
                 && b.status == Active && b.supersededBy == None && b.createdAt == now && b.updatedAt == now
                 && (b.group.None? <==> forall i: nat :: !Rival(rows, c, i))
                 && (b.group.Some? ==> b.group.value == Group(c.subject, c.pred, c.scope))
  {
    var rivals := Rivals(rows, c);
    if rivals != [] {
      var i: nat := rivals[0];
      assert i in rivals;
      assert Rival(rows, c, i);
    }
  }

  /* ---------- who is retired ---------- */

  /** Only a contrary live row is ever retired, and only when the candidate beats it. */
  lemma RetiredWereBeaten(rows: seq<Belief>, c: Candidate, now: int, decay: Decay, i: nat)
    requires i < |rows| && Upserted(rows, c, now, decay)[i] != rows[i]
    ensures Contrary(rows, c, i)
    ensures MarginOver(rows, c, i, now, decay) >= 0.12
            || (Revises(ClaimOf(c, now), rows[i].claim) && MarginOver(rows, c, i, now, decay) > -0.05)
  {
    RowAfter(rows, c, now, decay, i);
    OnlyBeatenAreRetired(rows, c, now, decay, i);
    MarginDecides(ClaimOf(c, now), rows[i].claim, now, decay);
  }

  /** The candidate is no newer, no more confident and no more trusted than any contrary live row, and of its source. */
  ghost predicate NoBetter(rows: seq<Belief>, c: Candidate, now: int) {
    var claim := ClaimOf(c, now);
    forall i: nat :: Contrary(rows, c, i) ==>
      && claim.source == rows[i].claim.source && claim.validFrom <= rows[i].claim.validFrom
      && claim.confidence <= rows[i].claim.confidence && claim.trust <= rows[i].claim.trust
  }

  /** Such a candidate retires nothing. */
  lemma NoBetterRetiresNothing(rows: seq<Belief>, c: Candidate, now: int, decay: Decay)
    requires WellKeyed(rows) && Decays(decay) && NoBetter(rows, c, now)
    ensures rows <= Upserted(rows, c, now, decay)
  {
    var after := Upserted(rows, c, now, decay);
    forall i: nat | i < |rows| ensures after[i] == rows[i] {
      RowAfter(rows, c, now, decay, i);
      if after[i] != rows[i] {
        OnlyBeatenAreRetired(rows, c, now, decay, i);
        NoBetterNeverWins(ClaimOf(c, now), rows[i].claim, now, decay);
      }
    }
  }

  /* ---------- clear verdicts ---------- */

  lemma AllContraryIsNotRestated(rows: seq<Belief>, c: Candidate, i: nat)
    requires Contrary(rows, c, i)
    ensures Rivals(rows, c) != [] && !AllRestate(rows, c, Rivals(rows, c))
  {
    assert i in Rivals(rows, c);
  }

  /** A candidate at least twelve percent stronger than every live row, all of them contrary, supersedes them all. */
  lemma ClearlyStrongerSupersedes(rows: seq<Belief>, c: Candidate, now: int, decay: Decay)
    requires WellKeyed(rows)
    requires exists i: nat :: Rival(rows, c, i)
    requires forall i: nat :: Rival(rows, c, i) ==> Contrary(rows, c, i) && MarginOver(rows, c, i, now, decay) >= 0.12
    ensures var after := Upserted(rows, c, now, decay);
            && |after| == |rows| + 1 && after[|rows|].status == Active && after[|rows|].value == c.value
            && forall i: nat :: i < |rows| ==>
                 after[i] == if Rival(rows, c, i)
                             then rows[i].(status := Superseded, supersededBy := Some(|rows|), validTo := Some(ClaimOf(c, now).validFrom),
                                           updatedAt := now)
                             else rows[i]
  {
    forall i: nat | Rival(rows, c, i) ensures Weighed(c, rows[i], now, decay) == Incoming {
      assert Contrary(rows, c, i);
      MarginDecides(ClaimOf(c, now), rows[i].claim, now, decay);
    }
    var r: nat :| Rival(rows, c, r);
    assert Contradicts(c, rows[r]);
    AllBeatenSupersedes(rows, c, now, decay);
    forall i: nat | i < |rows|
      ensures Upserted(rows, c, now, decay)[i] ==
              if Rival(rows, c, i) then Retired(rows[i], |rows|, ClaimOf(c, now).validFrom, now) else rows[i]
    {
      RowAfter(rows, c, now, decay, i);
      assert Rival(rows, c, i) ==> Contradicts(c, rows[i]);
    }
  }

  /** One at least twelve percent weaker than every live row, all of them contrary, is turned away. */
  lemma ClearlyWeakerIsTurnedAway(rows: seq<Belief>, c: Candidate, now: int, decay: Decay)
    requires exists i: nat :: Rival(rows, c, i)
    requires forall i: nat :: Rival(rows, c, i) ==> Contrary(rows, c, i) && MarginOver(rows, c, i, now, decay) <= -0.12
    ensures Decided(rows, c, now, decay) == RejectIncoming(ExistingStronger) && Upserted(rows, c, now, decay) == rows
  {
    var live := Rivals(rows, c);
    forall i: nat | Rival(rows, c, i) ensures Defends(rows, c, i, now, decay) {
      assert Contrary(rows, c, i);
      MarginDecides(ClaimOf(c, now), rows[i].claim, now, decay);
    }
    var r: nat :| Rival(rows, c, r);
    AllContraryIsNotRestated(rows, c, r);
    HasNoBeaten(rows, c, live, now, decay);
  }

  lemma HasNoBeaten(rows: seq<Belief>, c: Candidate, live: seq<nat>, now: int, decay: Decay)
    requires InRange(rows, live) && forall i: nat :: i in live ==> Defends(rows, c, i, now, decay)
    ensures Beaten(rows, c, live, now, decay) == []
  {
    forall i: nat ensures i !in Beaten(rows, c, live, now, decay) {
      assert i in live ==> Defends(rows, c, i, now, decay);
    }
    NoElements(Beaten(rows, c, live, now, decay));
  }

  /** A candidate that every live row says already is recorded beside them exactly when it is strong enough of itself. */
  lemma RestatementIsRecordedIff(rows: seq<Belief>, c: Candidate, now: int, decay: Decay)
    requires exists i: nat :: Rival(rows, c, i)
    requires forall i: nat :: Rival(rows, c, i) ==> rows[i].value == c.value
    ensures |Upserted(rows, c, now, decay)| == |rows| + 1 <==> ComputeBeliefStrength(ClaimOf(c, now), now, decay) >= 0.72
    ensures rows <= Upserted(rows, c, now, decay)
  {
    var r: nat :| Rival(rows, c, r);
    assert r in Rivals(rows, c);
  }

  lemma NoElements(s: seq<nat>)
    requires forall i: nat :: i !in s
    ensures s == []
  {
    if s != [] {
      FirstIsElement(s);
      assert false;
    }
  }

  lemma FirstIsElement(s: seq<nat>)
    requires s != []
    ensures exists i: nat :: i in s
  {
    assert s[0] in s;
  }

  /* ---------- the four verdicts ---------- */

  ghost predicate Beats(rows: seq<Belief>, c: Candidate, i: nat, now: int, decay: Decay)
    requires i < |rows|
  {
    || MarginOver(rows, c, i, now, decay) >= 0.12
    || (Revises(ClaimOf(c, now), rows[i].claim) && MarginOver(rows, c, i, now, decay) > -0.05)
  }

  lemma WeighedByMargin(rows: seq<Belief>, c: Candidate, i: nat, now: int, decay: Decay)
    requires i < |rows|
    ensures Weighed(c, rows[i], now, decay) == Incoming <==> Beats(rows, c, i, now, decay)
    ensures Weighed(c, rows[i], now, decay) == Existing <==> MarginOver(rows, c, i, now, decay) <= -0.12
  {
    MarginDecides(ClaimOf(c, now), rows[i].claim, now, decay);
  }

  ghost predicate SomeBeaten(rows: seq<Belief>, c: Candidate, now: int, decay: Decay) {
    exists i: nat :: Contrary(rows, c, i) && Beats(rows, c, i, now, decay)
  }

  ghost predicate SomeHolds(rows: seq<Belief>, c: Candidate, now: int, decay: Decay) {
    exists i: nat :: Contrary(rows, c, i) && MarginOver(rows, c, i, now, decay) <= -0.12
  }

  lemma BeatenIff(rows: seq<Belief>, c: Candidate, now: int, decay: Decay)
    ensures Beaten(rows, c, Rivals(rows, c), now, decay) != [] <==> SomeBeaten(rows, c, now, decay)
  {
    var beaten := Beaten(rows, c, Rivals(rows, c), now, decay);
    if beaten != [] {
      var i: nat := beaten[0];
      assert i in beaten;
      WeighedByMargin(rows, c, i, now, decay);
      assert Contrary(rows, c, i);
    }
    if i: nat :| Contrary(rows, c, i) && Beats(rows, c, i, now, decay) {
      WeighedByMargin(rows, c, i, now, decay);
      assert i in Rivals(rows, c) && i in beaten;
    }
  }

  lemma NoneDefendsIff(rows: seq<Belief>, c: Candidate, now: int, decay: Decay)
    ensures NoneDefends(rows, c, Rivals(rows, c), now, decay) <==> !SomeHolds(rows, c, now, decay)
  {
    var rivals := Rivals(rows, c);
    forall i: nat | i in rivals
      ensures Defends(rows, c, i, now, decay) <==> Contrary(rows, c, i) && MarginOver(rows, c, i, now, decay) <= -0.12
    {
      WeighedByMargin(rows, c, i, now, decay);
    }
    if i: nat :| Contrary(rows, c, i) && MarginOver(rows, c, i, now, decay) <= -0.12 {
      assert i in rivals;
    }
  }

  lemma NoneNarrower(rows: seq<Belief>, c: Candidate)
    requires WellKeyed(rows)
    ensures !AnyNarrower(rows, c, Rivals(rows, c))
  {
  }

  /** A candidate supersedes exactly when it beats some contrary live row and none holds its own against it by twelve
      percent. */
  lemma SupersedesIff(rows: seq<Belief>, c: Candidate, now: int, decay: Decay)
    requires WellKeyed(rows)
    ensures Decided(rows, c, now, decay).SupersedeExisting? <==>
            SomeBeaten(rows, c, now, decay) && !SomeHolds(rows, c, now, decay)
  {
    BeatenIff(rows, c, now, decay);
    NoneDefendsIff(rows, c, now, decay);
    NoneNarrower(rows, c);
    var rivals := Rivals(rows, c);
    if i: nat :| Contrary(rows, c, i) && Beats(rows, c, i, now, decay) {
      AllContraryIsNotRestated(rows, c, i);
    }
  }

  /** Scopes from the widest to the narrowest: global, agent, project, session, file. */
  predicate Inside(narrow: Scope, wide: Scope) {
    match wide
    case Global => narrow != Global
    case Agent => narrow == Project || narrow == Session || narrow == File
    case Project => narrow == Session || narrow == File
    case Session => narrow == File
    case File => false
  }

  lemma NarrowerIsInside(c: Candidate, b: Belief)
    ensures Narrower(c, b) <==> Inside(b.claim.scope, c.scope)
  {
  }

  ghost predicate BeatsSomeOf(rows: seq<Belief>, c: Candidate, live: seq<nat>, now: int, decay: Decay)
    requires InRange(rows, live)
  {
    exists i: nat :: i in live && rows[i].value != c.value && Beats(rows, c, i, now, decay)
  }

  ghost predicate WiderThanSomeOf(rows: seq<Belief>, c: Candidate, live: seq<nat>)
    requires InRange(rows, live)
  {
    exists i: nat :: i in live && rows[i].value != c.value && Inside(rows[i].claim.scope, c.scope)
  }

  lemma SomeIsBeaten(rows: seq<Belief>, c: Candidate, live: seq<nat>, now: int, decay: Decay)
    requires InRange(rows, live)
    ensures Beaten(rows, c, live, now, decay) != [] <==> BeatsSomeOf(rows, c, live, now, decay)
  {
    var beaten := Beaten(rows, c, live, now, decay);
    if beaten != [] {
      var i: nat := beaten[0];
      assert i in beaten;
      WeighedByMargin(rows, c, i, now, decay);
    }
    if i: nat :| i in live && rows[i].value != c.value && Beats(rows, c, i, now, decay) {
      WeighedByMargin(rows, c, i, now, decay);
      assert i in beaten;
    }
  }

  lemma SomeIsNarrower(rows: seq<Belief>, c: Candidate, live: seq<nat>)
    requires InRange(rows, live)
    ensures AnyNarrower(rows, c, live) <==> WiderThanSomeOf(rows, c, live)
    ensures AnyNarrower(rows, c, live) ==> !AllRestate(rows, c, live) && live != [] && ScopePriority(c.scope) < 5
  {
    forall i: nat | i in live ensures Narrower(c, rows[i]) <==> Inside(rows[i].claim.scope, c.scope) {
      NarrowerIsInside(c, rows[i]);
    }
  }

  lemma TooBroadByGuards(rows: seq<Belief>, c: Candidate, ids: seq<nat>, now: int, decay: Decay)
    requires InRange(rows, ids)
    ensures var live := LiveOf(rows, ids);
            Resolution(rows, c, ids, now, decay) == CoexistConditional(TooBroad) <==>
            live != [] && !AllRestate(rows, c, live) && AnyNarrower(rows, c, live)
            && Beaten(rows, c, live, now, decay) != [] && ScopePriority(c.scope) < 5
  {
  }

  /** Among rows of several scopes, a candidate that beats some and contradicts one of a narrower scope is only put beside
      them. */
  lemma TooBroadIff(rows: seq<Belief>, c: Candidate, ids: seq<nat>, now: int, decay: Decay)
    requires InRange(rows, ids)
    ensures Resolution(rows, c, ids, now, decay) == CoexistConditional(TooBroad) <==>
            WiderThanSomeOf(rows, c, LiveOf(rows, ids)) && BeatsSomeOf(rows, c, LiveOf(rows, ids), now, decay)
  {
    SomeIsBeaten(rows, c, LiveOf(rows, ids), now, decay);
    SomeIsNarrower(rows, c, LiveOf(rows, ids));
    TooBroadByGuards(rows, c, ids, now, decay);
  }
}
