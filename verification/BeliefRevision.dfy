/** What upserts do to a table of beliefs: which contradictions they clear, and what history they keep. */
module BeliefRevision {
  import opened BeliefStore
  import opened BeliefStrength
  import opened Options

  /** A row's key names the row's own predicate and scope. */
  ghost predicate WellKeyed(rows: seq<Belief>) {
    forall i :: 0 <= i < |rows| ==> rows[i].key.pred == rows[i].claim.pred && rows[i].key.scope == rows[i].claim.scope
  }

  /** A live row under the candidate's key. */
  predicate Rival(rows: seq<Belief>, c: Candidate, i: nat) {
    && i < |rows| && rows[i].project == c.project
    && rows[i].key == Key(c.subject, c.pred, c.scope, c.discriminator)
    && (rows[i].status == Active || rows[i].status == Suspect)
  }

  lemma RivalsAreLive(rows: seq<Belief>, c: Candidate)
    ensures var live := LiveOf(rows, FindByCanonicalKey(rows, ToCanonicalKey(c), c.project));
            forall i: nat :: i in live <==> Rival(rows, c, i)
  {
  }

  ghost predicate AllBeaten(rows: seq<Belief>, c: Candidate, now: int, decay: Decay) {
    forall i: nat :: Rival(rows, c, i) && Contradicts(c, rows[i]) ==> Weighed(c, rows[i], now, decay) == Incoming
  }

  ghost predicate Clear(rows: seq<Belief>, c: Candidate) {
    forall i: nat :: Rival(rows, c, i) ==> !Contradicts(c, rows[i])
  }

  lemma RivalsBeaten(rows: seq<Belief>, c: Candidate, now: int, decay: Decay, live: seq<nat>, i: nat)
    requires WellKeyed(rows) && AllBeaten(rows, c, now, decay) && InRange(rows, live)
    requires forall j: nat :: j in live <==> Rival(rows, c, j)
    requires i in live
    ensures !Narrower(c, rows[i]) && !Defends(rows, c, i, now, decay)
    ensures i in Beaten(rows, c, live, now, decay) <==> Contradicts(c, rows[i])
  {
  }

  lemma SupersedeByFacts(rows: seq<Belief>, c: Candidate, ids: seq<nat>, now: int, decay: Decay, i: nat)
    requires InRange(rows, ids)
    requires var live := LiveOf(rows, ids);
             && i in live && Contradicts(c, rows[i]) && i in Beaten(rows, c, live, now, decay)
             && forall j: nat :: j in live ==> !Narrower(c, rows[j]) && !Defends(rows, c, j, now, decay)
    ensures Resolution(rows, c, ids, now, decay) == SupersedeExisting(Beaten(rows, c, LiveOf(rows, ids), now, decay))
  {
  }

  /** Beating every contradicting rival is superseding them all: scopes under one key are equal, so none is narrower. */
  lemma AllBeatenSupersedes(rows: seq<Belief>, c: Candidate, now: int, decay: Decay)
    requires WellKeyed(rows) && AllBeaten(rows, c, now, decay) && !Clear(rows, c)
    ensures var d := Decided(rows, c, now, decay);
            d.SupersedeExisting? && forall i: nat :: i in d.ids <==> Rival(rows, c, i) && Contradicts(c, rows[i])
  {
    var ids := FindByCanonicalKey(rows, ToCanonicalKey(c), c.project);
    var live := LiveOf(rows, ids);
    RivalsAreLive(rows, c);
    forall j: nat | j in live
      ensures !Narrower(c, rows[j]) && !Defends(rows, c, j, now, decay)
      ensures j in Beaten(rows, c, live, now, decay) <==> Contradicts(c, rows[j])
    {
      RivalsBeaten(rows, c, now, decay, live, j);
    }
    var i: nat :| Rival(rows, c, i) && Contradicts(c, rows[i]);
    assert i in live;
    SupersedeByFacts(rows, c, ids, now, decay, i);
  }

  lemma OnlyBeatenAreRetired(rows: seq<Belief>, c: Candidate, now: int, decay: Decay, i: nat)
    requires i < |rows|
    ensures var d := Decided(rows, c, now, decay);
            d.SupersedeExisting? && i in d.ids ==> Rival(rows, c, i) && Contradicts(c, rows[i]) && Weighed(c, rows[i], now, decay) == Incoming
  {
    RivalsAreLive(rows, c);
  }

  lemma RowAfter(rows: seq<Belief>, c: Candidate, now: int, decay: Decay, i: nat)
    requires i < |rows|
    ensures var d, after := Decided(rows, c, now, decay), Upserted(rows, c, now, decay);
            && i < |after|
            && after[i] == if d.SupersedeExisting? && i in d.ids then Retired(rows[i], |rows|, ClaimOf(c, now).validFrom, now) else rows[i]
  {
  }

  /** After an upsert no live row under the key holds another value exactly when, before it, every live row with
      another value lost the comparison. */
  lemma UpsertClearsIff(rows: seq<Belief>, c: Candidate, now: int, decay: Decay)
    requires WellKeyed(rows)
    ensures Clear(Upserted(rows, c, now, decay), c) <==> AllBeaten(rows, c, now, decay)
  {
    var d, after := Decided(rows, c, now, decay), Upserted(rows, c, now, decay);
    if AllBeaten(rows, c, now, decay) {
      if !Clear(rows, c) {
        AllBeatenSupersedes(rows, c, now, decay);
      }
      forall i: nat | Rival(after, c, i) ensures !Contradicts(c, after[i]) {
        if i < |rows| {
          RowAfter(rows, c, now, decay, i);
        }
      }
    } else {
      var i: nat :| Rival(rows, c, i) && Contradicts(c, rows[i]) && Weighed(c, rows[i], now, decay) != Incoming;
      OnlyBeatenAreRetired(rows, c, now, decay, i);
      RowAfter(rows, c, now, decay, i);
      assert Rival(after, c, i) && Contradicts(c, after[i]);
    }
  }

  /** The candidate is newer than every rival, from the same kind of source, and no less confident or trusted. */
  ghost predicate Newest(rows: seq<Belief>, c: Candidate, now: int) {
    var claim := ClaimOf(c, now);
    forall i: nat :: Rival(rows, c, i) ==>
      && claim.validFrom > rows[i].claim.validFrom && claim.source == rows[i].claim.source
      && claim.confidence >= rows[i].claim.confidence && claim.trust >= rows[i].claim.trust
  }

  /** The newest preference wins. */
  lemma NewestPreferenceWins(rows: seq<Belief>, c: Candidate, now: int, decay: Decay)
    requires WellKeyed(rows) && Decays(decay) && PreferenceLike(c.pred) && Newest(rows, c, now)
    ensures Clear(Upserted(rows, c, now, decay), c)
    ensures forall i: nat :: Rival(rows, c, i) && Contradicts(c, rows[i]) ==>
              var after := Upserted(rows, c, now, decay);
              after[i].status == Superseded && after[i].supersededBy == Some(|rows|) && after[i].validTo == Some(ClaimOf(c, now).validFrom)
  {
    forall i: nat | Rival(rows, c, i) && Contradicts(c, rows[i]) ensures Weighed(c, rows[i], now, decay) == Incoming {
      NewerPreferencePrevails(ClaimOf(c, now), rows[i].claim, now, decay);
    }
    UpsertClearsIff(rows, c, now, decay);
    if !Clear(rows, c) {
      AllBeatenSupersedes(rows, c, now, decay);
      forall i: nat | Rival(rows, c, i) && Contradicts(c, rows[i])
        ensures Upserted(rows, c, now, decay)[i] == Retired(rows[i], |rows|, ClaimOf(c, now).validFrom, now)
      {
        RowAfter(rows, c, now, decay, i);
      }
    }
  }

  /* ---------- newest first ---------- */

  ghost predicate Ordered(rows: seq<Belief>, ids: seq<nat>) {
    InRange(rows, ids) && forall a, b :: 0 <= a < b < |ids| ==> NoOlder(rows[ids[a]], rows[ids[b]])
  }

  lemma {:induction false} PlacedOrdered(rows: seq<Belief>, ids: seq<nat>, i: nat)
    requires Ordered(rows, ids) && i < |rows|
    ensures Ordered(rows, Placed(rows, ids, i))
  {
    if ids == [] || NoOlder(rows[i], rows[ids[0]]) {
    } else {
      PlacedOrdered(rows, ids[1..], i);
      var tail := Placed(rows, ids[1..], i);
      forall b | 0 <= b < |tail| ensures NoOlder(rows[ids[0]], rows[tail[b]]) {
        assert tail[b] in tail;
      }
    }
  }

  lemma FindOneMore(rows: seq<Belief>, n: nat, key: Key, project: string)
    requires 0 < n <= |rows|
    ensures var prior := FindUpTo(rows, n - 1, key, project);
            FindUpTo(rows, n, key, project) == if Under(rows[n - 1], key, project) then Placed(rows, prior, n - 1) else prior
  {
  }

  lemma {:induction false} FoundOrdered(rows: seq<Belief>, n: nat, key: Key, project: string)
    requires n <= |rows|
    ensures Ordered(rows, FindUpTo(rows, n, key, project))
  {
    if n == 0 {
    } else {
      FoundOrdered(rows, n - 1, key, project);
      PlacedOrdered(rows, FindUpTo(rows, n - 1, key, project), n - 1);
      FindOneMore(rows, n, key, project);
    }
  }

  lemma LaterAppended(rows: seq<Belief>, ids: seq<nat>, kept: seq<nat>)
    requires ids != [] && Ordered(rows, ids) && Ordered(rows, kept)
    requires forall j: nat :: j in kept ==> j in ids[..|ids| - 1]
    ensures Ordered(rows, kept + [ids[|ids| - 1]])
  {
    var all := kept + [ids[|ids| - 1]];
    forall a | 0 <= a < |kept| ensures NoOlder(rows[all[a]], rows[ids[|ids| - 1]]) {
      var j: nat := kept[a];
      assert j in kept;
      assert j in ids[..|ids| - 1];
    }
  }

  lemma {:induction false} LiveOrdered(rows: seq<Belief>, ids: seq<nat>)
    requires Ordered(rows, ids)
    ensures Ordered(rows, LiveOf(rows, ids))
  {
    if ids == [] {
    } else {
      LiveOrdered(rows, ids[..|ids| - 1]);
      LaterAppended(rows, ids, LiveOf(rows, ids[..|ids| - 1]));
    }
  }

  lemma {:induction false} BeatenOrdered(rows: seq<Belief>, c: Candidate, ids: seq<nat>, now: int, decay: Decay)
    requires Ordered(rows, ids)
    ensures Ordered(rows, Beaten(rows, c, ids, now, decay))
  {
    if ids == [] {
    } else {
      BeatenOrdered(rows, c, ids[..|ids| - 1], now, decay);
      LaterAppended(rows, ids, Beaten(rows, c, ids[..|ids| - 1], now, decay));
    }
  }

  /** Of the rows it supersedes, a new row names the newest. */
  lemma NamesTheNewest(rows: seq<Belief>, c: Candidate, now: int, decay: Decay, i: nat)
    requires var d := Decided(rows, c, now, decay); d.SupersedeExisting? && i in d.ids
    ensures var after := Upserted(rows, c, now, decay);
            && after[|rows|].supersedes.Some? && after[|rows|].supersedes.value < |rows| && i < |rows|
            && var newest := rows[after[|rows|].supersedes.value];
               newest.claim.validFrom > rows[i].claim.validFrom
               || (newest.claim.validFrom == rows[i].claim.validFrom && newest.createdAt >= rows[i].createdAt)
  {
    var key := ToCanonicalKey(c);
    var ids := FindByCanonicalKey(rows, key, c.project);
    FoundOrdered(rows, |rows|, key, c.project);
    LiveOrdered(rows, ids);
    BeatenOrdered(rows, c, LiveOf(rows, ids), now, decay);
  }

  /* ---------- runs ---------- */

  datatype Call = Call(candidate: Candidate, now: int, refused: bool)

  ghost function After(rows: seq<Belief>, call: Call, decay: Decay): seq<Belief> {
    if call.refused then rows else Upserted(rows, call.candidate, call.now, decay)
  }

  ghost function Run(calls: seq<Call>, decay: Decay): seq<Belief> {
    if calls == [] then [] else After(Run(calls[..|calls| - 1], decay), calls[|calls| - 1], decay)
  }

  /** A superseded row points to a later row of the same claim with another value, and ended where that one began. */
  ghost predicate Succeeded(rows: seq<Belief>, i: nat) {
    i < |rows| ==>
      && (rows[i].status == Superseded <==> rows[i].supersededBy.Some?)
      && (rows[i].supersededBy.Some? ==>
            var j := rows[i].supersededBy.value;
            && i < j < |rows|
            && Under(rows[j], rows[i].key, rows[i].project)
            && rows[j].value != rows[i].value
            && rows[i].validTo == Some(rows[j].claim.validFrom))
  }

  /** A row that names a predecessor is that row's successor, and names one whenever it has any. */
  ghost predicate Preceded(rows: seq<Belief>, j: nat) {
    j < |rows| ==>
      && (rows[j].supersedes.Some? ==> rows[j].supersedes.value < j && rows[rows[j].supersedes.value].supersededBy == Some(j))
      && forall i :: 0 <= i < j && rows[i].supersededBy == Some(j) ==> rows[j].supersedes.Some?
  }

  ghost predicate Linked(rows: seq<Belief>) {
    && WellKeyed(rows)
    && (forall i {:trigger Succeeded(rows, i)} :: Succeeded(rows, i))
    && forall j {:trigger Preceded(rows, j)} :: Preceded(rows, j)
  }

  lemma WellKeyedStays(rows: seq<Belief>, c: Candidate, now: int, decay: Decay)
    requires WellKeyed(rows)
    ensures WellKeyed(Upserted(rows, c, now, decay))
  {
    var after := Upserted(rows, c, now, decay);
    forall i | 0 <= i < |after| ensures after[i].key.pred == after[i].claim.pred && after[i].key.scope == after[i].claim.scope {
      if i < |rows| {
        RowAfter(rows, c, now, decay, i);
      }
    }
  }

  lemma SucceededStays(rows: seq<Belief>, c: Candidate, now: int, decay: Decay, i: nat)
    requires Linked(rows)
    ensures Succeeded(Upserted(rows, c, now, decay), i)
  {
    var after := Upserted(rows, c, now, decay);
    if i < |rows| {
      assert Succeeded(rows, i);
      RowAfter(rows, c, now, decay, i);
      OnlyBeatenAreRetired(rows, c, now, decay, i);
      if rows[i].supersededBy.Some? {
        RowAfter(rows, c, now, decay, rows[i].supersededBy.value);
      }
    }
  }

  lemma NewRowLinks(rows: seq<Belief>, c: Candidate, now: int, decay: Decay)
    requires Linked(rows)
    ensures Preceded(Upserted(rows, c, now, decay), |rows|)
  {
    var d, after := Decided(rows, c, now, decay), Upserted(rows, c, now, decay);
    forall i: nat | i < |rows| ensures after[i].supersededBy == Some(|rows|) <==> d.SupersedeExisting? && i in d.ids {
      assert Succeeded(rows, i);
      RowAfter(rows, c, now, decay, i);
    }
    if d.SupersedeExisting? && d.ids != [] {
      RetiredInRange(rows, c, now, decay, 0);
      RowAfter(rows, c, now, decay, d.ids[0]);
    }
  }

  lemma RetiredInRange(rows: seq<Belief>, c: Candidate, now: int, decay: Decay, k: nat)
    ensures var d := Decided(rows, c, now, decay);
            d.SupersedeExisting? && k < |d.ids| ==> d.ids[k] < |rows| && d.ids[k] in d.ids
  {
  }

  lemma PrecededStays(rows: seq<Belief>, c: Candidate, now: int, decay: Decay, j: nat)
    requires Linked(rows)
    ensures Preceded(Upserted(rows, c, now, decay), j)
  {
    var after := Upserted(rows, c, now, decay);
    if j < |rows| {
      assert Preceded(rows, j);
      RowAfter(rows, c, now, decay, j);
      forall i: nat | i < |rows| && (after[i].supersededBy == Some(j) || rows[i].supersededBy == Some(j))
        ensures after[i].supersededBy == rows[i].supersededBy
      {
        assert Succeeded(rows, i);
        RowAfter(rows, c, now, decay, i);
        OnlyBeatenAreRetired(rows, c, now, decay, i);
      }
    } else if j == |rows| {
      NewRowLinks(rows, c, now, decay);
    }
  }

  /** Every table reached by upserts is linked: successions only lead forward in time of recording, so they end. */
  lemma {:induction false} RunStaysLinked(calls: seq<Call>, decay: Decay)
    ensures Linked(Run(calls, decay))
  {
    if calls == [] {
    } else {
      var rows, call := Run(calls[..|calls| - 1], decay), calls[|calls| - 1];
      RunStaysLinked(calls[..|calls| - 1], decay);
      if !call.refused {
        WellKeyedStays(rows, call.candidate, call.now, decay);
        forall i ensures Succeeded(Run(calls, decay), i) {
          SucceededStays(rows, call.candidate, call.now, decay, i);
        }
        forall j ensures Preceded(Run(calls, decay), j) {
          PrecededStays(rows, call.candidate, call.now, decay, j);
        }
      }
    }
  }

  /** The row that now stands for a row: itself, or what superseded it in the end. */
  function Standing(rows: seq<Belief>, i: nat): nat
    decreases |rows| - i
  {
    if i < |rows| && rows[i].supersededBy.Some? && i < rows[i].supersededBy.value < |rows| then Standing(rows, rows[i].supersededBy.value) else i
  }

  /** From every row of a run, following the successors ends at a row of the same claim that nothing supersedes. */
  lemma {:induction false} SuccessionEnds(calls: seq<Call>, decay: Decay, i: nat)
    requires i < |Run(calls, decay)|
    ensures var rows := Run(calls, decay);
            var s := Standing(rows, i);
            i <= s < |rows| && rows[s].status != Superseded && Under(rows[s], rows[i].key, rows[i].project)
    decreases |Run(calls, decay)| - i
  {
    var rows := Run(calls, decay);
    RunStaysLinked(calls, decay);
    assert Succeeded(rows, i);
    if rows[i].supersededBy.Some? {
      SuccessionEnds(calls, decay, rows[i].supersededBy.value);
    }
  }

  /** Nothing recorded is ever lost: a later call leaves a row as it was or retires it, and only once. */
  lemma HistoryIsKept(rows: seq<Belief>, call: Call, decay: Decay, i: nat)
    requires i < |rows|
    ensures var after := After(rows, call, decay);
            && |rows| <= |after| <= |rows| + 1
            && (after[i] == rows[i] ||
                (Live(rows[i]) && !call.refused && after[i] == Retired(rows[i], |rows|, ClaimOf(call.candidate, call.now).validFrom, call.now)))
  {
    if !call.refused {
      RowAfter(rows, call.candidate, call.now, decay, i);
      OnlyBeatenAreRetired(rows, call.candidate, call.now, decay, i);
    }
  }
}
