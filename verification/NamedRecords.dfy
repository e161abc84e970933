/** What a written turn looks like in the ledger, and how turns are numbered within a thread. */
module NamedRecords {
  import opened NamedTurns
  import opened Options

  /* ---------- what a claim compares ---------- */

  /** The event under the id has the words, in the caller's turn and session. */
  predicate RecordedWith(ledger: map<EventId, Event>, id: EventId, t: Turn, words: string) {
    id in ledger && ledger[id].text == words && ledger[id].turn == Given(t.name) && ledger[id].session == t.session
  }

  /** A turn is new as long as its user event is not recorded.  From then on it is a replay if all it says is recorded
      as it says it, with the ids of that, and a conflict if not. */
  lemma ClaimedAs(ledger: map<EventId, Event>, t: Turn, redact: Redact)
    ensures var name := Identity(t.project, t.agent, t.session, t.name);
            var user, reply := Named(name, UserSpeaks), Named(name, AssistantSpeaks);
            var heard, answered := RecordedWith(ledger, user, t, redact(t.userText)), RecordedWith(ledger, reply, t, redact(t.assistantText));
            && (ClaimOf(ledger, t, redact).NotRecorded? <==> user !in ledger)
            && (ClaimOf(ledger, t, redact) == Replay([user]) <==> heard && t.assistantText == "")
            && (ClaimOf(ledger, t, redact) == Replay([user, reply]) <==> heard && t.assistantText != "" && answered)
            && (ClaimOf(ledger, t, redact).Conflict? <==> user in ledger && !(heard && (t.assistantText == "" || answered)))
  {
  }

  /* ---------- what is written ---------- */

  /** The thread of a turn that names none is its session. */
  predicate InThread(t: Turn, thread: string) {
    (t.thread == "" ==> thread == t.session) && (t.thread != "" ==> thread == t.thread)
  }

  /** An event with the words of one speaker of the call. */
  predicate RecordOf(c: Call, e: Event, speaker: Speaker, words: string, turnSeq: int, next: Option<EventId>) {
    && e.project == c.turn.project && e.agent == c.turn.agent && e.session == c.turn.session && InThread(c.turn, e.thread)
    && e.speaker == speaker && e.text == words && e.turnSeq == turnSeq && e.next == next
    && (c.turn.name != "" ==> e.turn == Given(c.turn.name))
    && (c.turn.name == "" ==> e.turn == MadeUp(c.turn.agent, c.turn.session, turnSeq, c.at))
  }

  /** The number a turn gets: its own, or the one after the counter of its thread. */
  predicate NumberOf(s: State, t: Turn, thread: string, n: int) {
    && (t.turnSeq.Some? ==> t.turnSeq == Some(n))
    && (t.turnSeq.None? ==> n == if (t.project, thread) in s.turnSeqs then s.turnSeqs[(t.project, thread)] + 1 else 1)
  }

  /** A turn that is recorded adds the user's words and, if there is one, the reply they lead to, under one number; no
      other event changes. */
  lemma RecordedAsSaid(s: State, c: Call, redact: Redact)
    requires Remember(s, c, redact).1.Recorded?
    ensures var after, ids := After(s, c, redact), Remember(s, c, redact).1.ids;
            && (forall id :: id in after.ledger <==> id in s.ledger || id in ids)
            && (forall id :: id in s.ledger ==> id !in ids && after.ledger[id] == s.ledger[id])
            && |ids| == (if c.turn.assistantText == "" then 1 else 2)
            && ids[0] in after.ledger
            && exists n: int ::
                 && NumberOf(s, c.turn, after.ledger[ids[0]].thread, n)
                 && RecordOf(c, after.ledger[ids[0]], UserSpeaks, redact(c.turn.userText), n, if |ids| == 1 then None else Some(ids[1]))
                 && (|ids| == 2 ==> ids[0] != ids[1] && ids[1] in after.ledger
                                    && RecordOf(c, after.ledger[ids[1]], AssistantSpeaks, redact(c.turn.assistantText), n, None))
  {
    var (drawn, n) := Draw(s, c.turn);
    assert Remember(s, c, redact) == Written(drawn, c, n, redact);
    var after, ids := After(s, c, redact), Remember(s, c, redact).1.ids;
    assert NumberOf(s, c.turn, after.ledger[ids[0]].thread, n);
  }

  /* ---------- numbers ---------- */

  /** The counter of a thread is at least every number in it. */
  ghost predicate Counted(s: State, id: EventId) {
    id in s.ledger && s.ledger[id].thread != "" ==>
      var e := s.ledger[id];
      (e.project, e.thread) in s.turnSeqs && e.turnSeq <= s.turnSeqs[(e.project, e.thread)]
  }

  ghost predicate AllCounted(s: State) {
    forall id {:trigger Counted(s, id)} :: Counted(s, id)
  }

  lemma AppendCounts(s: State, id: EventId, e: Event)
    requires AllCounted(s)
    ensures AllCounted(Appended(s, id, e))
  {
    forall other ensures Counted(Appended(s, id, e), other) {
      assert Counted(s, other);
    }
  }

  lemma DrawCounts(s: State, t: Turn)
    requires AllCounted(s)
    ensures AllCounted(Draw(s, t).0)
  {
    forall id ensures Counted(Draw(s, t).0, id) {
      assert Counted(s, id);
    }
  }

  lemma LinkCounts(s: State, from: EventId, to: EventId)
    requires AllCounted(s) && from in s.ledger
    ensures AllCounted(Linked(s, from, to))
  {
    forall id ensures Counted(Linked(s, from, to), id) {
      assert Counted(s, id);
    }
  }

  lemma CallCounts(s: State, c: Call, redact: Redact)
    requires AllCounted(s)
    ensures AllCounted(After(s, c, redact))
  {
    var (drawn, n) := Draw(s, c.turn);
    DrawCounts(s, c.turn);
    if c.fault != UserWriteFails && UserId(c) !in drawn.ledger {
      AppendCounts(drawn, UserId(c), MakeEvent(c, n, UserSpeaks, redact));
      var one := Appended(drawn, UserId(c), MakeEvent(c, n, UserSpeaks, redact));
      AppendCounts(one, AssistantId(c), MakeEvent(c, n, AssistantSpeaks, redact));
      LinkCounts(Appended(one, AssistantId(c), MakeEvent(c, n, AssistantSpeaks, redact)), UserId(c), AssistantId(c));
    }
  }

  lemma {:induction false} RunCounts(cs: seq<Call>, redact: Redact)
    ensures AllCounted(Run(EMPTY, cs, redact))
  {
    if cs == [] {
      forall id ensures Counted(EMPTY, id) {
      }
    } else {
      RunCounts(cs[..|cs| - 1], redact);
      CallCounts(Run(EMPTY, cs[..|cs| - 1], redact), cs[|cs| - 1], redact);
    }
  }

  /** Over every run, a turn that leaves its number to the store gets a larger one than any event of its thread has. */
  lemma DrawnNumberIsNew(cs: seq<Call>, c: Call, redact: Redact, id: EventId)
    requires var s := Run(EMPTY, cs, redact);
             && c.turn.turnSeq.None? && Remember(s, c, redact).1.Recorded? && id in s.ledger
             && s.ledger[id].project == c.turn.project && InThread(c.turn, s.ledger[id].thread) && s.ledger[id].thread != ""
    ensures var s := Run(EMPTY, cs, redact);
            forall own :: own in Remember(s, c, redact).1.ids ==>
              own in After(s, c, redact).ledger && s.ledger[id].turnSeq < After(s, c, redact).ledger[own].turnSeq
  {
    var s := Run(EMPTY, cs, redact);
    RunCounts(cs, redact);
    assert Counted(s, id);
    RecordedAsSaid(s, c, redact);
  }
}
