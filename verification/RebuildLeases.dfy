/** What a publish lease is worth: while it runs, nobody can take the job from its owner. */
module RebuildLeases {
  import opened Options
  import opened TimeBuckets
  import opened TimeProjection
  import opened RebuildSafety

  /** The job with this token is there, under a lease that runs until `until` at least, or it is gone for good. */
  predicate Leased(db: Db, generation: nat, token: nat, until: int) {
    && generation in db.used
    && (db.job.Some? && db.job.value.generation == generation ==>
          db.job.value.token == Some(token) && db.job.value.leaseUntil >= until)
  }

  /** The clock reading of an action, if it has one. */
  function ClockOf(a: Action): Option<int> {
    if a.Advance? then Some(a.input.now) else None
  }

  /** While the lease runs, no statement of any worker gives the job another token. */
  lemma LeaseHoldsToken(cal: Calendar, s: State, w: nat, inp: Input)
    requires w in s.workers && s.db.job.Some? && s.db.job.value.generation in s.db.used
    requires s.db.job.value.token.Some? && inp.now <= s.db.job.value.leaseUntil
    ensures var j, after := s.db.job.value, WorkerStep(cal, s, w, inp).db.job;
            after.Some? && after.value.generation == j.generation ==> after.value.token == j.token
  {
  }

  /** A claim on a token that nobody draws again is taken exactly when there is none yet or its lease has run out. */
  lemma ClaimTakesOver(cal: Calendar, s: State, w: nat, inp: Input)
    requires w in s.workers && !s.workers[w].checking && s.workers[w].pc.Claim? && inp.id !in s.db.used
    requires Holds(s.db, s.workers[w]) && s.db.job.value.status == Ready && s.db.job.value.revision == s.workers[w].revision
    ensures var j, after := s.db.job.value, WorkerStep(cal, s, w, inp);
            if j.token.Some? && inp.now <= j.leaseUntil
            then after.db == s.db && after.workers[w].pc == FailJob
            else after.db.job == Some(j.(token := Some(inp.id), leaseUntil := inp.now + 30_000)) && after.workers[w].token == Some(inp.id)
  {
  }

  /** The owner's publish transaction renews the lease. */
  lemma PublishRenewsLease(cal: Calendar, s: State, w: nat, inp: Input)
    requires w in s.workers && !s.workers[w].checking && s.workers[w].pc.Publish? && Owns(s.db, s.workers[w])
    ensures WorkerStep(cal, s, w, inp).db.job == Some(s.db.job.value.(leaseUntil := inp.now + 30_000))
  {
  }

  lemma StatementKeepsLease(cal: Calendar, s: State, w: nat, inp: Input, generation: nat, token: nat, until: int)
    requires w in s.workers && Leased(s.db, generation, token, until) && until - 30_000 <= inp.now <= until
    ensures Leased(WorkerStep(cal, s, w, inp).db, generation, token, until)
  {
  }

  lemma StepKeepsLease(cal: Calendar, s: State, a: Action, generation: nat, token: nat, until: int)
    requires Leased(s.db, generation, token, until)
    requires ClockOf(a).Some? ==> until - 30_000 <= ClockOf(a).value <= until
    ensures Leased(Next(cal, s, a).db, generation, token, until)
  {
    if a.Advance? && a.worker in s.workers {
      StatementKeepsLease(cal, s, a.worker, a.input, generation, token, until);
    }
  }

  /** For the 30 seconds of a lease, in every run of any number of workers, ingests and crashes, the job either still has
      its owner's token or is gone. */
  lemma {:induction false} LeaseIsExclusive(cal: Calendar, s: State, actions: seq<Action>, generation: nat, token: nat, until: int)
    requires Leased(s.db, generation, token, until)
    requires forall a :: a in actions && ClockOf(a).Some? ==> until - 30_000 <= ClockOf(a).value <= until
    ensures Leased(Run(cal, s, actions).db, generation, token, until)
    decreases |actions|
  {
    if actions == [] {
    } else {
      StepKeepsLease(cal, s, actions[0], generation, token, until);
      LeaseIsExclusive(cal, Next(cal, s, actions[0]), actions[1..], generation, token, until);
    }
  }

  /** Only `w` holds the token. */
  ghost predicate HeldBy(s: State, token: nat, w: nat) {
    token in s.db.used && forall v | v in s.workers && s.workers[v].token == Some(token) :: v == w
  }

  lemma StepKeepsHolder(cal: Calendar, s: State, a: Action, token: nat, w: nat)
    requires TokensDistinct(s) && HeldBy(s, token, w)
    ensures HeldBy(Next(cal, s, a), token, w)
  {
    if a.Advance? && a.worker in s.workers {
      WorkerDrawsIds(cal, s, a.worker, a.input);
    }
  }

  lemma {:induction false} RunKeepsHolder(cal: Calendar, s: State, actions: seq<Action>, token: nat, w: nat)
    requires TokensDistinct(s) && HeldBy(s, token, w)
    ensures HeldBy(Run(cal, s, actions), token, w)
    decreases |actions|
  {
    if actions == [] {
    } else {
      StepKeepsTokens(cal, s, actions[0]);
      StepKeepsHolder(cal, s, actions[0], token, w);
      RunKeepsHolder(cal, Next(cal, s, actions[0]), actions[1..], token, w);
    }
  }

  /** What a claim that goes through leaves: a lease of 30 seconds on a token that only the claimant holds. */
  lemma ClaimLeases(cal: Calendar, s: State, w: nat, inp: Input)
    requires TokensDistinct(s) && w in s.workers && s.workers[w].pc.Claim? && !s.workers[w].checking
    requires WorkerStep(cal, s, w, inp).workers[w].pc.Publish?
    ensures var t := WorkerStep(cal, s, w, inp);
            Leased(t.db, s.workers[w].generation, inp.id, inp.now + 30_000) && HeldBy(t, inp.id, w)
  {
    assert KnownIds(s.db, s.workers[w]);
    forall x | x in s.workers ensures s.workers[x].token != Some(inp.id) {
      assert KnownIds(s.db, s.workers[x]);
    }
  }

  lemma HolderAlonePublishes(u: State, generation: nat, token: nat, until: int, w: nat, v: nat)
    requires Leased(u.db, generation, token, until) && HeldBy(u, token, w)
    requires v in u.workers && Owns(u.db, u.workers[v]) && u.workers[v].generation == generation
    ensures v == w
  {
  }

  lemma ClaimedUntilThen(cal: Calendar, s: State, w: nat, inp: Input, after: seq<Action>, v: nat)
    requires TokensDistinct(s) && w in s.workers && s.workers[w].pc.Claim? && !s.workers[w].checking
    requires WorkerStep(cal, s, w, inp).workers[w].pc.Publish?
    requires forall a :: a in after && ClockOf(a).Some? ==> inp.now <= ClockOf(a).value <= inp.now + 30_000
    ensures var u := Run(cal, WorkerStep(cal, s, w, inp), after);
            v in u.workers && Owns(u.db, u.workers[v]) && u.workers[v].generation == s.workers[w].generation ==> v == w
  {
    var t := WorkerStep(cal, s, w, inp);
    var generation, until := s.workers[w].generation, inp.now + 30_000;
    ClaimLeases(cal, s, w, inp);
    StepKeepsTokens(cal, s, Advance(w, inp));
    LeaseIsExclusive(cal, t, after, generation, inp.id, until);
    RunKeepsHolder(cal, t, after, inp.id, w);
    var u := Run(cal, t, after);
    if v in u.workers && Owns(u.db, u.workers[v]) && u.workers[v].generation == generation {
      HolderAlonePublishes(u, generation, inp.id, until, w, v);
    }
  }

  /** A worker that has claimed a job is its only possible publisher for 30 seconds: nobody else passes the guard of the
      publish and finish transactions, in whatever run of whatever workers. */
  lemma ClaimantAlonePublishes(cal: Calendar, s0: State, before: seq<Action>, w: nat, inp: Input, after: seq<Action>, v: nat)
    requires Init(s0)
    requires var s := Run(cal, s0, before);
             w in s.workers && s.workers[w].pc.Claim? && !s.workers[w].checking && WorkerStep(cal, s, w, inp).workers[w].pc.Publish?
    requires forall a :: a in after && ClockOf(a).Some? ==> inp.now <= ClockOf(a).value <= inp.now + 30_000
    ensures var s := Run(cal, s0, before);
            var u := Run(cal, WorkerStep(cal, s, w, inp), after);
            v in u.workers && Owns(u.db, u.workers[v]) && u.workers[v].generation == s.workers[w].generation ==> v == w
  {
    var s := Run(cal, s0, before);
    TokensStayDistinct(cal, s0, before);
    ClaimedUntilThen(cal, s, w, inp, after, v);
  }
}
