/** Writing a conversation turn under a name the caller chose, and what a retry of it does. */
module NamedTurns {
  import opened Options

  /** What a named turn's event ids are derived from; the derivation is taken to be injective. */
  datatype Identity = Identity(project: string, agent: string, session: string, name: string)

  datatype Speaker = UserSpeaks | AssistantSpeaks

  datatype EventId = Named(identity: Identity, speaker: Speaker) | Random(n: nat)

  /** The turn id stored with an event: the caller's, or one made up for an unnamed turn. */
  datatype TurnId = Given(name: string) | MadeUp(agent: string, session: string, turnSeq: int, at: int)

  datatype Event = Event(project: string, agent: string, session: string, thread: string, turn: TurnId, turnSeq: int, speaker: Speaker,
                         text: string, next: Option<EventId>)

  /** An empty name means an unnamed turn, an empty assistant text no reply. */
  datatype Turn = Turn(project: string, agent: string, session: string, thread: string, name: string, turnSeq: Option<int>,
                       userText: string, assistantText: string)

  datatype State = State(ledger: map<EventId, Event>, turnSeqs: map<(string, string), int>)

  datatype Claim = NotRecorded | Replay(ids: seq<EventId>) | Conflict

  datatype Answer = Recorded(ids: seq<EventId>) | Duplicate(ids: seq<EventId>) | IdentityConflict | StoreError

  datatype Fault = NoFault | UserWriteFails | AssistantWriteFails

  type Redact = string -> string

  function IdentityOf(t: Turn): Identity {
    Identity(t.project, t.agent, t.session, t.name)
  }

  function IdOf(t: Turn, speaker: Speaker): EventId {
    Named(IdentityOf(t), speaker)
  }

  function ThreadOf(t: Turn): string {
    if t.thread != "" then t.thread else t.session
  }

  /** The recorded event carries the same turn, session and (redacted) text. */
  predicate Matches(e: Event, t: Turn, text: string, redact: Redact) {
    e.turn == Given(t.name) && e.session == t.session && e.text == redact(text)
  }

  function ClaimOf(ledger: map<EventId, Event>, t: Turn, redact: Redact): Claim {
    var user, assistant := IdOf(t, UserSpeaks), IdOf(t, AssistantSpeaks);
    if user !in ledger then NotRecorded
    else if !Matches(ledger[user], t, t.userText, redact) then Conflict
    else if t.assistantText == "" then Replay([user])
    else if assistant !in ledger || !Matches(ledger[assistant], t, t.assistantText, redact) then Conflict
    else Replay([user, assistant])
  }

  /* ---------- writing ---------- */

  function Seen(turnSeqs: map<(string, string), int>, project: string, thread: string): int {
    if (project, thread) in turnSeqs then turnSeqs[(project, thread)] else 0
  }

  function Draw(s: State, t: Turn): (r: (State, int)) {
    if t.turnSeq.Some? then (s, t.turnSeq.value)
    else
      var n := Seen(s.turnSeqs, t.project, ThreadOf(t)) + 1;
      (s.(turnSeqs := s.turnSeqs[(t.project, ThreadOf(t)) := n]), n)
  }

  /** The event is stored and the counter of its thread, if it has one, goes up to its number. */
  function Appended(s: State, id: EventId, e: Event): State {
    var key := (e.project, e.thread);
    State(s.ledger[id := e],
          if e.thread == "" || (key in s.turnSeqs && s.turnSeqs[key] >= e.turnSeq) then s.turnSeqs
          else s.turnSeqs[key := e.turnSeq])
  }

  function Linked(s: State, from: EventId, to: EventId): State
    requires from in s.ledger
  {
    s.(ledger := s.ledger[from := s.ledger[from].(next := Some(to))])
  }

  /** One call: the turn, the clock, two random ids for an unnamed turn, and what the store does to the writes. */
  datatype Call = Call(turn: Turn, at: int, userId: nat, assistantId: nat, fault: Fault)

  function UserId(c: Call): EventId {
    if c.turn.name != "" then IdOf(c.turn, UserSpeaks) else Random(c.userId)
  }

  function AssistantId(c: Call): EventId {
    if c.turn.name != "" then IdOf(c.turn, AssistantSpeaks) else Random(c.assistantId)
  }

  function MakeEvent(c: Call, turnSeq: int, speaker: Speaker, redact: Redact): Event {
    var t := c.turn;
    Event(t.project, t.agent, t.session, ThreadOf(t),
          if t.name != "" then Given(t.name) else MadeUp(t.agent, t.session, turnSeq, c.at),
          turnSeq, speaker, redact(if speaker == UserSpeaks then t.userText else t.assistantText), None)
  }

  /** State and answer after a call. */
  function Remember(s: State, c: Call, redact: Redact): (State, Answer) {
    var claim := if c.turn.name != "" then ClaimOf(s.ledger, c.turn, redact) else NotRecorded;
    match claim
    case Conflict => (s, IdentityConflict)
    case Replay(ids) => (s, Duplicate(ids))
    case NotRecorded => Written(Draw(s, c.turn).0, c, Draw(s, c.turn).1, redact)
  }

  function Written(s: State, c: Call, turnSeq: int, redact: Redact): (State, Answer) {
    if c.fault == UserWriteFails || UserId(c) in s.ledger then (s, StoreError)
    else
      var one := Appended(s, UserId(c), MakeEvent(c, turnSeq, UserSpeaks, redact));
      if c.turn.assistantText == "" then (one, Recorded([UserId(c)]))
      else if c.fault == AssistantWriteFails || AssistantId(c) in one.ledger then (one, StoreError)
      else
        var two := Appended(one, AssistantId(c), MakeEvent(c, turnSeq, AssistantSpeaks, redact));
        (Linked(two, UserId(c), AssistantId(c)), Recorded([UserId(c), AssistantId(c)]))
  }

  class AgentMemoryBackend {
    const redact: Redact
    var ledger: map<EventId, Event>
    var turnSeqs: map<(string, string), int>

    ghost function Contents(): State
      reads this
    {
      State(ledger, turnSeqs)
    }

    constructor (redact: Redact)
      ensures this.redact == redact && Contents() == State(map[], map[])
    {
      this.redact := redact;
      ledger, turnSeqs := map[], map[];
    }

    method ClaimAgentTurn(t: Turn) returns (claim: Claim)
      ensures claim == ClaimOf(ledger, t, redact)
    {
      var userEventId := IdOf(t, UserSpeaks);
      if userEventId !in ledger {
        return NotRecorded;
      }
      if !Matches(ledger[userEventId], t, t.userText, redact) {
        return Conflict;
      }
      if t.assistantText == "" {
        return Replay([userEventId]);
      }
      var assistantEventId := IdOf(t, AssistantSpeaks);
      if assistantEventId !in ledger {
        return Conflict;
      }
      if !Matches(ledger[assistantEventId], t, t.assistantText, redact) {
        return Conflict;
      }
      claim := Replay([userEventId, assistantEventId]);
    }

    method GetNextTurnSeq(project: string, thread: string) returns (n: int)
      modifies this`turnSeqs
      ensures n == Seen(old(turnSeqs), project, thread) + 1 && turnSeqs == old(turnSeqs)[(project, thread) := n]
    {
      n := (if (project, thread) in turnSeqs then turnSeqs[(project, thread)] else 0) + 1;
      turnSeqs := turnSeqs[(project, thread) := n];
    }

    method AdvanceSequence(key: (string, string), value: int)
      modifies this`turnSeqs
      ensures turnSeqs == if key in old(turnSeqs) && old(turnSeqs)[key] >= value then old(turnSeqs) else old(turnSeqs)[key := value]
    {
      if key !in turnSeqs || turnSeqs[key] < value {
        turnSeqs := turnSeqs[key := value];
      }
    }

    /** An id already in the ledger violates the primary key. */
    method RecordRawEvent(id: EventId, e: Event, fails: bool) returns (ok: bool)
      modifies this`ledger, this`turnSeqs
      ensures ok <==> !fails && id !in old(ledger)
      ensures Contents() == if ok then Appended(old(Contents()), id, e) else old(Contents())
    {
      if fails || id in ledger {
        return false;
      }
      ledger := ledger[id := e];
      if e.thread != "" {
        AdvanceSequence((e.project, e.thread), e.turnSeq);
      }
      ok := true;
    }

    method RememberTurn(c: Call) returns (answer: Answer)
      modifies this`ledger, this`turnSeqs
      ensures (Contents(), answer) == Remember(old(Contents()), c, redact)
    {
      var turn := c.turn;
      if turn.name != "" {
        var claim := ClaimAgentTurn(turn);
        if claim.Conflict? {
          return IdentityConflict;
        }
        if claim.Replay? {
          return Duplicate(claim.ids);
        }
      }
      var turnSeq;
      if turn.turnSeq.Some? {
        turnSeq := turn.turnSeq.value;
      } else {
        turnSeq := GetNextTurnSeq(turn.project, ThreadOf(turn));
      }
      var wrote := RecordRawEvent(UserId(c), MakeEvent(c, turnSeq, UserSpeaks, redact), c.fault == UserWriteFails);
      if !wrote {
        if turn.name != "" {
          // Without another writer in between, asking again cannot find the turn.
          var settled := ClaimAgentTurn(turn);
          if settled.Replay? {
            assert false;
          }
        }
        return StoreError;
      }
      if turn.assistantText == "" {
        return Recorded([UserId(c)]);
      }
      var replied := RecordRawEvent(AssistantId(c), MakeEvent(c, turnSeq, AssistantSpeaks, redact), c.fault == AssistantWriteFails);
      if !replied {
        return StoreError;
      }
      ledger := ledger[UserId(c) := ledger[UserId(c)].(next := Some(AssistantId(c)))];
      answer := Recorded([UserId(c), AssistantId(c)]);
    }
  }

  /* ---------- runs ---------- */

  function After(s: State, c: Call, redact: Redact): State {
    Remember(s, c, redact).0
  }

  function Run(s: State, cs: seq<Call>, redact: Redact): State {
    if cs == [] then s else After(Run(s, cs[..|cs| - 1], redact), cs[|cs| - 1], redact)
  }

  const EMPTY := State(map[], map[])

  /** A named event says what its id says, and only named events carry a caller's turn id. */
  ghost predicate Truthful(id: EventId, e: Event) {
    match id
    case Named(i, speaker) =>
      e.project == i.project && e.agent == i.agent && e.session == i.session && e.turn == Given(i.name) && e.speaker == speaker
    case Random(_) => e.turn.MadeUp?
  }

  ghost predicate Sound(s: State) {
    && (forall id :: id in s.ledger ==> Truthful(id, s.ledger[id]))
    && forall i :: Named(i, AssistantSpeaks) in s.ledger ==> Named(i, UserSpeaks) in s.ledger
  }

  /** Nothing is taken out of the ledger, and texts stay. */
  ghost predicate Extends(s: State, t: State) {
    forall id :: id in s.ledger ==> id in t.ledger && t.ledger[id].text == s.ledger[id].text
  }

  lemma AppendSound(s: State, id: EventId, e: Event)
    requires Sound(s) && id !in s.ledger && Truthful(id, e)
    requires id.Named? && id.speaker == AssistantSpeaks ==> Named(id.identity, UserSpeaks) in s.ledger
    ensures Sound(Appended(s, id, e)) && Extends(s, Appended(s, id, e))
  {
  }

  lemma LinkSound(s: State, from: EventId, to: EventId)
    requires Sound(s) && from in s.ledger
    ensures Sound(Linked(s, from, to)) && Extends(s, Linked(s, from, to))
  {
  }

  lemma EventTruthful(c: Call, turnSeq: int, redact: Redact)
    ensures Truthful(UserId(c), MakeEvent(c, turnSeq, UserSpeaks, redact))
    ensures Truthful(AssistantId(c), MakeEvent(c, turnSeq, AssistantSpeaks, redact))
  {
  }

  lemma ExtendsTwice(s: State, t: State, u: State)
    requires Extends(s, t) && Extends(t, u)
    ensures Extends(s, u)
  {
  }

  lemma WrittenSound(s: State, c: Call, turnSeq: int, redact: Redact)
    requires Sound(s)
    ensures Sound(Written(s, c, turnSeq, redact).0) && Extends(s, Written(s, c, turnSeq, redact).0)
  {
    var user, assistant := UserId(c), AssistantId(c);
    EventTruthful(c, turnSeq, redact);
    if c.fault != UserWriteFails && user !in s.ledger {
      var one := Appended(s, user, MakeEvent(c, turnSeq, UserSpeaks, redact));
      AppendSound(s, user, MakeEvent(c, turnSeq, UserSpeaks, redact));
      if assistant !in one.ledger {
        var two := Appended(one, assistant, MakeEvent(c, turnSeq, AssistantSpeaks, redact));
        AppendSound(one, assistant, MakeEvent(c, turnSeq, AssistantSpeaks, redact));
        LinkSound(two, user, assistant);
        ExtendsTwice(s, one, two);
        ExtendsTwice(s, two, Linked(two, user, assistant));
      }
    }
  }

  lemma CallSound(s: State, c: Call, redact: Redact)
    requires Sound(s)
    ensures Sound(After(s, c, redact)) && Extends(s, After(s, c, redact))
  {
    WrittenSound(Draw(s, c.turn).0, c, Draw(s, c.turn).1, redact);
  }

  lemma {:induction false} RunSound(s: State, cs: seq<Call>, redact: Redact)
    requires Sound(s)
    ensures Sound(Run(s, cs, redact)) && Extends(s, Run(s, cs, redact))
  {
    if cs == [] {
    } else {
      RunSound(s, cs[..|cs| - 1], redact);
      CallSound(Run(s, cs[..|cs| - 1], redact), cs[|cs| - 1], redact);
    }
  }

  ghost predicate Owns(s: State, i: Identity, speaker: Speaker, id: EventId) {
    && id in s.ledger
    && s.ledger[id].project == i.project && s.ledger[id].agent == i.agent && s.ledger[id].session == i.session
    && s.ledger[id].turn == Given(i.name) && s.ledger[id].speaker == speaker
  }

  /** However often a turn is written, in whatever company, it owns at most one event of each speaker. */
  lemma OneEventPerSpeaker(cs: seq<Call>, redact: Redact, i: Identity, speaker: Speaker, a: EventId, b: EventId)
    requires Owns(Run(EMPTY, cs, redact), i, speaker, a) && Owns(Run(EMPTY, cs, redact), i, speaker, b)
    ensures a == b == Named(i, speaker)
  {
    RunSound(EMPTY, cs, redact);
  }

  ghost predicate Completed(s: State, c: Call, redact: Redact) {
    c.turn.name != "" && Remember(s, c, redact).1.Recorded?
  }

  /** What a completed write leaves in the ledger. */
  lemma CompletedIsRecorded(s: State, c: Call, redact: Redact)
    requires Sound(s) && Completed(s, c, redact)
    ensures var t, after := c.turn, After(s, c, redact);
            && IdOf(t, UserSpeaks) in after.ledger && after.ledger[IdOf(t, UserSpeaks)].text == redact(t.userText)
            && (IdOf(t, AssistantSpeaks) in after.ledger <==> t.assistantText != "")
            && (t.assistantText != "" ==> after.ledger[IdOf(t, AssistantSpeaks)].text == redact(t.assistantText))
            && Remember(s, c, redact).1.ids == (if t.assistantText == "" then [IdOf(t, UserSpeaks)] else [IdOf(t, UserSpeaks), IdOf(t, AssistantSpeaks)])
  {
    assert ClaimOf(s.ledger, c.turn, redact).NotRecorded?;
    assert IdOf(c.turn, UserSpeaks) !in s.ledger;
    assert IdOf(c.turn, AssistantSpeaks) !in s.ledger;
  }

  /** Whether the assistant's reply of a recorded turn can no longer appear later. */
  lemma RecordedUserBarsAssistant(s: State, c: Call, redact: Redact, i: Identity)
    requires Sound(s) && Named(i, UserSpeaks) in s.ledger && Named(i, AssistantSpeaks) !in s.ledger && i.name != ""
    ensures Named(i, AssistantSpeaks) !in After(s, c, redact).ledger
  {
    if c.turn.name != "" && IdentityOf(c.turn) == i {
      assert IdOf(c.turn, UserSpeaks) in s.ledger;
    }
  }

  lemma {:induction false} AssistantStaysBarred(s: State, cs: seq<Call>, redact: Redact, i: Identity)
    requires Sound(s) && Named(i, UserSpeaks) in s.ledger && Named(i, AssistantSpeaks) !in s.ledger && i.name != ""
    ensures Named(i, AssistantSpeaks) !in Run(s, cs, redact).ledger
  {
    if cs == [] {
    } else {
      var before := cs[..|cs| - 1];
      AssistantStaysBarred(s, before, redact, i);
      RunSound(s, before, redact);
      RecordedUserBarsAssistant(Run(s, before, redact), cs[|cs| - 1], redact, i);
    }
  }

  lemma LaterClaim(s: State, t: Turn, redact: Redact)
    requires Sound(s) && IdOf(t, UserSpeaks) in s.ledger
    ensures ClaimOf(s.ledger, t, redact) ==
            var user, assistant := IdOf(t, UserSpeaks), IdOf(t, AssistantSpeaks);
            if s.ledger[user].text != redact(t.userText) then Conflict
            else if t.assistantText == "" then Replay([user])
            else if assistant !in s.ledger || s.ledger[assistant].text != redact(t.assistantText) then Conflict
            else Replay([user, assistant])
  {
  }

  /** The retry says the same as the completed write, as far as it says anything. */
  predicate Repeats(done: Turn, again: Turn, redact: Redact) {
    && redact(again.userText) == redact(done.userText)
    && (again.assistantText != "" ==> done.assistantText != "" && redact(again.assistantText) == redact(done.assistantText))
  }

  /** After a completed write, whatever happens in between, another call under the same identity changes nothing: it
      is a replay with the recorded ids when its texts are the same, and a conflict when they are not. */
  lemma LaterCallIsSettled(s: State, done: Call, between: seq<Call>, again: Call, redact: Redact)
    requires Sound(s) && Completed(s, done, redact) && IdentityOf(again.turn) == IdentityOf(done.turn)
    ensures var t := Run(After(s, done, redact), between, redact);
            && After(t, again, redact) == t
            && Remember(t, again, redact).1 ==
               (if !Repeats(done.turn, again.turn, redact) then IdentityConflict
                else if again.turn.assistantText == "" then Duplicate([IdOf(done.turn, UserSpeaks)])
                else Duplicate([IdOf(done.turn, UserSpeaks), IdOf(done.turn, AssistantSpeaks)]))
  {
    var one := After(s, done, redact);
    var t := Run(one, between, redact);
    CompletedIsRecorded(s, done, redact);
    CallSound(s, done, redact);
    RunSound(one, between, redact);
    if done.turn.assistantText == "" {
      AssistantStaysBarred(one, between, redact, IdentityOf(done.turn));
    }
    LaterClaim(t, again.turn, redact);
  }

  predicate UserLost(c: Call) {
    c.fault == UserWriteFails
  }

  predicate ReplyLost(c: Call) {
    c.fault == AssistantWriteFails && c.turn.assistantText != ""
  }

  /** What the first call for a turn leaves of it, and when it fails. */
  lemma FirstCall(s: State, c: Call, redact: Redact)
    requires Sound(s) && c.turn.name != "" && ClaimOf(s.ledger, c.turn, redact).NotRecorded?
    ensures var t, after := c.turn, After(s, c, redact);
            && (Remember(s, c, redact).1 == StoreError <==> UserLost(c) || ReplyLost(c))
            && (IdOf(t, UserSpeaks) in after.ledger <==> !UserLost(c))
            && (!UserLost(c) ==> after.ledger[IdOf(t, UserSpeaks)].text == redact(t.userText))
            && (IdOf(t, AssistantSpeaks) in after.ledger <==> !UserLost(c) && !ReplyLost(c) && t.assistantText != "")
            && (IdOf(t, AssistantSpeaks) in after.ledger ==> after.ledger[IdOf(t, AssistantSpeaks)].text == redact(t.assistantText))
            && (UserLost(c) ==> after.ledger == s.ledger)
  {
    assert IdOf(c.turn, UserSpeaks) !in s.ledger;
    assert IdOf(c.turn, AssistantSpeaks) !in s.ledger;
  }

  /** A turn whose reply could not be written is stuck for ever: under its identity only the user's words alone are
      answered as recorded, and everything else, the word-for-word retry included, is a conflict. */
  lemma HalfWrittenTurnIsStuck(s: State, c: Call, between: seq<Call>, again: Call, redact: Redact)
    requires Sound(s) && c.turn.name != "" && ClaimOf(s.ledger, c.turn, redact).NotRecorded? && ReplyLost(c)
    requires IdentityOf(again.turn) == IdentityOf(c.turn)
    ensures Remember(s, c, redact).1 == StoreError
    ensures var t := Run(After(s, c, redact), between, redact);
            Remember(t, again, redact) ==
            (t, if redact(again.turn.userText) == redact(c.turn.userText) && again.turn.assistantText == ""
                then Duplicate([IdOf(c.turn, UserSpeaks)]) else IdentityConflict)
  {
    var one := After(s, c, redact);
    var t := Run(one, between, redact);
    FirstCall(s, c, redact);
    CallSound(s, c, redact);
    RunSound(one, between, redact);
    AssistantStaysBarred(one, between, redact, IdentityOf(c.turn));
    LaterClaim(t, again.turn, redact);
  }

  /** The events of one identity stay as they are while calls go by under other identities. */
  ghost predicate SameOf(s: State, t: State, i: Identity) {
    forall speaker :: var id := Named(i, speaker);
      (id in s.ledger <==> id in t.ledger) && (id in s.ledger ==> s.ledger[id] == t.ledger[id])
  }

  lemma OtherCallSpares(s: State, c: Call, redact: Redact, i: Identity)
    requires i.name != "" && IdentityOf(c.turn) != i
    ensures SameOf(s, After(s, c, redact), i)
  {
  }

  lemma {:induction false} OtherCallsSpare(s: State, cs: seq<Call>, redact: Redact, i: Identity)
    requires i.name != "" && forall c :: c in cs ==> IdentityOf(c.turn) != i
    ensures SameOf(s, Run(s, cs, redact), i)
  {
    if cs == [] {
    } else {
      OtherCallsSpare(s, cs[..|cs| - 1], redact, i);
      OtherCallSpares(Run(s, cs[..|cs| - 1], redact), cs[|cs| - 1], redact, i);
    }
  }

  lemma ClaimOfSame(s: State, t: State, turn: Turn, redact: Redact)
    requires SameOf(s, t, IdentityOf(turn))
    ensures ClaimOf(t.ledger, turn, redact) == ClaimOf(s.ledger, turn, redact)
  {
    assert IdOf(turn, UserSpeaks) in s.ledger <==> IdOf(turn, UserSpeaks) in t.ledger;
    assert IdOf(turn, AssistantSpeaks) in s.ledger <==> IdOf(turn, AssistantSpeaks) in t.ledger;
  }

  lemma ClaimAfterFirst(s: State, c: Call, redact: Redact)
    requires Sound(s) && c.turn.name != "" && ClaimOf(s.ledger, c.turn, redact).NotRecorded?
    ensures ClaimOf(After(s, c, redact).ledger, c.turn, redact) ==
            var user, assistant := IdOf(c.turn, UserSpeaks), IdOf(c.turn, AssistantSpeaks);
            if UserLost(c) then NotRecorded
            else if ReplyLost(c) then Conflict
            else if c.turn.assistantText == "" then Replay([user])
            else Replay([user, assistant])
  {
    FirstCall(s, c, redact);
    CallSound(s, c, redact);
    if !UserLost(c) {
      LaterClaim(After(s, c, redact), c.turn, redact);
    }
  }

  /** Which failed write decides what a word-for-word retry does, however many calls under other identities come in
      between: after a lost user event it writes the turn, after a lost reply it is a conflict, and else a replay. */
  lemma FaultDecidesRetry(s: State, c: Call, between: seq<Call>, again: Call, redact: Redact)
    requires Sound(s) && c.turn.name != "" && ClaimOf(s.ledger, c.turn, redact).NotRecorded?
    requires again.turn == c.turn && again.fault == NoFault
    requires forall b :: b in between ==> IdentityOf(b.turn) != IdentityOf(c.turn)
    ensures Remember(s, c, redact).1 == StoreError <==> UserLost(c) || ReplyLost(c)
    ensures UserLost(c) ==> After(s, c, redact).ledger == s.ledger
    ensures var answer := Remember(Run(After(s, c, redact), between, redact), again, redact).1;
            && (answer.Recorded? <==> UserLost(c))
            && (answer.IdentityConflict? <==> ReplyLost(c))
            && (answer.Duplicate? <==> !UserLost(c) && !ReplyLost(c))
  {
    var one := After(s, c, redact);
    var t := Run(one, between, redact);
    FirstCall(s, c, redact);
    CallSound(s, c, redact);
    RunSound(one, between, redact);
    OtherCallsSpare(one, between, redact, IdentityOf(c.turn));
    ClaimAfterFirst(s, c, redact);
    ClaimOfSame(one, t, c.turn, redact);
    if UserLost(c) {
      FirstCall(t, again, redact);
    }
  }
}
