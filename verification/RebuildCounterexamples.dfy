/** Runs from the empty database that show where the rebuild's guarantees end. */
module RebuildCounterexamples {
  import opened Options
  import opened TimeBuckets
  import opened TimeProjection
  import opened RebuildSafety

  const Start := State(Db({}, 0, None, None, NoTables, {}), map[])

  const First := Neuron(0, 0)

  lemma {:induction false} RunThen(cal: Calendar, s: State, actions: seq<Action>, a: Action)
    ensures Run(cal, s, actions + [a]) == Next(cal, Run(cal, s, actions), a)
    decreases |actions|
  {
    if actions == [] {
      assert [a][1..] == [];
    } else {
      assert (actions + [a])[1..] == actions[1..] + [a];
      RunThen(cal, Next(cal, s, actions[0]), actions[1..], a);
    }
  }

  /** Extend a run by one action. */
  lemma Then(cal: Calendar, actions: seq<Action>, a: Action) returns (more: seq<Action>, s: State)
    ensures more == actions + [a] && s == Run(cal, Start, more) == Next(cal, Run(cal, Start, actions), a)
  {
    more := actions + [a];
    s := Run(cal, Start, more);
    RunThen(cal, Start, actions, a);
  }

  function Blank(): Input { Input(0, 0, 0, {}, []) }

  function Draw(id: nat): Input { Input(id, 0, 0, {}, []) }

  function Rows(ns: set<Neuron>): Input { Input(0, 0, 500, ns, []) }

  function BucketRows(bs: seq<Bucket>): Input { Input(0, 0, 500, {}, bs) }

  function FirstEntries(cal: Calendar): set<Entry> { PlanEntries(cal, {First}, 0) }

  function FirstBuckets(cal: Calendar): seq<Bucket> {
    [BucketOf(cal, First, Day, 0), BucketOf(cal, First, Month, 0), BucketOf(cal, First, Week, 0)]
  }

  function BuiltJob(cal: Calendar): Job {
    Job(10, 0, Building, Some(First), 1, None, 0, Staged(FirstEntries(cal), BucketsIn(FirstEntries(cal)), {}, {}))
  }

  function Builder(pc: Pc, checking: bool, cursor: Option<Neuron>): Worker {
    Worker(0, pc, checking, 10, 1, cursor, None, map[], None)
  }

  function Rebuild(job: Job): Db {
    Db({First}, 1, Some(Projection(Rebuilding, 0, 1)), Some(job), NoTables, {10})
  }

  /** One neuron that arrived outside the incremental path, and one worker that has created a job for it. */
  lemma Opening(cal: Calendar) returns (run: seq<Action>)
    ensures Run(cal, Start, run) ==
            State(Rebuild(Job(10, 0, Building, None, 1, None, 0, NothingStaged)), map[1 := Builder(BuildRead, true, None)])
  {
    run := [];
    var s := Start;
    run, s := Then(cal, run, Mutate({First}, NoTables));
    run, s := Then(cal, run, Begin(1, 0));
    assert s.workers == map[1 := Worker(0, Deciding(None), false, 0, 0, None, None, map[], None)];
    run, s := Then(cal, run, Advance(1, Blank()));
    assert s.workers == map[1 := Worker(0, Replacing, false, 0, 0, None, None, map[], None)];
    run, s := Then(cal, run, Advance(1, Blank()));
    assert s == State(Db({First}, 1, None, None, NoTables, {}), map[1 := Worker(0, Creating(1), false, 0, 0, None, None, map[], None)]);
    run, s := Then(cal, run, Advance(1, Draw(10)));
    assert s.workers == map[1 := Builder(BuildRead, true, None)];
  }

  /* ---------- single statements, as run extensions ---------- */

  lemma Check(cal: Calendar, run: seq<Action>, w: nat) returns (more: seq<Action>)
    requires var s := Run(cal, Start, run);
             w in s.workers && s.workers[w].checking && s.workers[w].revision == s.db.revision
    ensures var s := Run(cal, Start, run);
            Run(cal, Start, more) == State(s.db, s.workers[w := s.workers[w].(checking := false)])
  {
    var t;
    more, t := Then(cal, run, Advance(w, Blank()));
  }

  function ReadDone(k: Worker, ns: set<Neuron>): Worker {
    if ns == {} then k.(pc := if k.pc == BuildRead then SnapClear else StageClear, checking := true)
    else k.(pc := if k.pc == BuildRead then BuildWrite(ns) else SnapWrite(ns))
  }

  /** A page query, seen as one action. */
  lemma ReadPage(cal: Calendar, s: State, w: nat, ns: set<Neuron>)
    requires w in s.workers && !s.workers[w].checking && IsPage(s.db.neurons, s.workers[w].cursor, 500, ns)
    requires s.workers[w].pc == BuildRead || s.workers[w].pc == SnapRead
    ensures Next(cal, s, Advance(w, Rows(ns))) == State(s.db, s.workers[w := ReadDone(s.workers[w], ns)])
  {
    if s.workers[w].pc == BuildRead {
      ReadStepIs(s, w, ns, BuildWrite(ns), SnapClear);
    } else {
      ReadStepIs(s, w, ns, SnapWrite(ns), StageClear);
    }
  }

  lemma ReadStepIs(s: State, w: nat, ns: set<Neuron>, write: Pc, done: Pc)
    requires w in s.workers && IsPage(s.db.neurons, s.workers[w].cursor, 500, ns)
    ensures ReadStep(s, w, Rows(ns), write, done) ==
            Put(s, w, if ns == {} then s.workers[w].(pc := done, checking := true) else s.workers[w].(pc := write))
  {
  }

  /** The page query returns the one neuron there is. */
  lemma ReadAll(cal: Calendar, run: seq<Action>, w: nat) returns (more: seq<Action>)
    requires var s := Run(cal, Start, run);
             && w in s.workers && !s.workers[w].checking && s.db.neurons == {First} && s.workers[w].cursor == None
             && (s.workers[w].pc == BuildRead || s.workers[w].pc == SnapRead)
    ensures var s := Run(cal, Start, run);
            var pc := if s.workers[w].pc == BuildRead then BuildWrite({First}) else SnapWrite({First});
            Run(cal, Start, more) == State(s.db, s.workers[w := s.workers[w].(pc := pc)])
  {
    var t;
    assert After({First}, None) == {First};
    assert IsPage({First}, None, 500, {First});
    ReadPage(cal, Run(cal, Start, run), w, {First});
    more, t := Then(cal, run, Advance(w, Rows({First})));
  }

  /** The page query returns nothing more. */
  lemma ReadNone(cal: Calendar, run: seq<Action>, w: nat) returns (more: seq<Action>)
    requires var s := Run(cal, Start, run);
             && w in s.workers && !s.workers[w].checking && s.db.neurons == {First} && s.workers[w].cursor == Some(First)
             && (s.workers[w].pc == BuildRead || s.workers[w].pc == SnapRead)
    ensures var s := Run(cal, Start, run);
            var pc := if s.workers[w].pc == BuildRead then SnapClear else StageClear;
            Run(cal, Start, more) == State(s.db, s.workers[w := s.workers[w].(pc := pc, checking := true)])
  {
    var t;
    assert After({First}, Some(First)) == {};
    assert IsPage({First}, Some(First), 500, {});
    ReadPage(cal, Run(cal, Start, run), w, {});
    more, t := Then(cal, run, Advance(w, Rows({})));
  }

  /** ... and has staged its buckets and stands before the snapshot. */
  lemma OneBuilder(cal: Calendar) returns (run: seq<Action>)
    ensures Run(cal, Start, run) == State(Rebuild(BuiltJob(cal)), map[1 := Builder(SnapClear, false, Some(First))])
  {
    run := Opening(cal);
    run := Check(cal, run, 1);
    run := ReadAll(cal, run, 1);
    assert Run(cal, Start, run).workers == map[1 := Builder(BuildWrite({First}), false, None)];
    run := FirstPage(cal, run);
    run := Check(cal, run, 1);
    run := ReadNone(cal, run, 1);
    run := Check(cal, run, 1);
    assert Run(cal, Start, run).workers == map[1 := Builder(SnapClear, false, Some(First))];
  }

  lemma FirstPage(cal: Calendar, run: seq<Action>) returns (more: seq<Action>)
    requires Run(cal, Start, run) == State(Rebuild(Job(10, 0, Building, None, 1, None, 0, NothingStaged)),
                                           map[1 := Builder(BuildWrite({First}), false, None)])
    ensures Run(cal, Start, more) == State(Rebuild(BuiltJob(cal)), map[1 := Builder(BuildRead, true, Some(First))])
  {
    var t;
    more, t := Then(cal, run, Advance(1, Blank()));
    assert {} + FirstEntries(cal) == FirstEntries(cal);
    assert {} + BucketsIn(FirstEntries(cal)) == BucketsIn(FirstEntries(cal));
    assert t.db.job == Some(BuiltJob(cal));
    assert t.workers == map[1 := Builder(BuildRead, true, Some(First))];
  }

  /* ---------- a second builder of the same generation ---------- */

  function Joined(cal: Calendar): State {
    State(Rebuild(BuiltJob(cal)), map[1 := Builder(SnapClear, false, Some(First)), 2 := Builder(SnapClear, false, Some(First))])
  }

  /** The second worker reads a 'building' row and resumes it; nothing stops it. */
  lemma SecondBuilder(cal: Calendar) returns (run: seq<Action>)
    ensures Run(cal, Start, run) == Joined(cal)
  {
    run := OneBuilder(cal);
    var s;
    run, s := Then(cal, run, Begin(2, 0));
    assert s.workers[2] == Worker(0, Deciding(Some(BuiltJob(cal))), false, 0, 0, None, None, map[], None);
    run, s := Then(cal, run, Advance(2, Blank()));
    assert s.workers[2] == Builder(BuildRead, true, Some(First));
    run := Check(cal, run, 2);
    run := ReadNone(cal, run, 2);
    run := Check(cal, run, 2);
    assert Run(cal, Start, run).workers == Joined(cal).workers;
  }

  lemma ClearSnapshot(cal: Calendar, run: seq<Action>, w: nat) returns (more: seq<Action>)
    requires var s := Run(cal, Start, run);
             w in s.workers && !s.workers[w].checking && s.workers[w].pc == SnapClear && Holds(s.db, s.workers[w])
    ensures var s := Run(cal, Start, run);
            var j := s.db.job.value;
            Run(cal, Start, more) ==
            State(s.db.(job := Some(j.(staged := j.staged.(active := {})))),
                  s.workers[w := s.workers[w].(pc := SnapRead, checking := true, cursor := None)])
  {
    var t;
    more, t := Then(cal, run, Advance(w, Blank()));
  }

  lemma Snapshot(cal: Calendar, run: seq<Action>, w: nat) returns (more: seq<Action>)
    requires var s := Run(cal, Start, run);
             && w in s.workers && !s.workers[w].checking && s.workers[w].pc == SnapWrite({First})
             && Holds(s.db, s.workers[w]) && s.db.job.value.staged.active == {}
    ensures var s := Run(cal, Start, run);
            var j := s.db.job.value;
            Run(cal, Start, more) ==
            State(s.db.(job := Some(j.(staged := j.staged.(active := {0})))),
                  s.workers[w := s.workers[w].(pc := SnapRead, checking := true, cursor := Some(First))])
  {
    var t;
    more, t := Then(cal, run, Advance(w, Blank()));
    assert Ids({First}) == {0};
    assert {} + Ids({First}) == {0};
  }

  /** The first worker takes its snapshot. */
  lemma Snapped(cal: Calendar) returns (run: seq<Action>)
    ensures var s := Run(cal, Start, run);
            var j := BuiltJob(cal);
            && s.db == Rebuild(j.(staged := j.staged.(active := {0})))
            && s.workers == Joined(cal).workers[1 := Builder(StageClear, false, Some(First))]
  {
    run := SecondBuilder(cal);
    run := ClearSnapshot(cal, run, 1);
    run := Check(cal, run, 1);
    run := ReadAll(cal, run, 1);
    run := Snapshot(cal, run, 1);
    run := Check(cal, run, 1);
    run := ReadNone(cal, run, 1);
    run := Check(cal, run, 1);
    assert Run(cal, Start, run).workers == Joined(cal).workers[1 := Builder(StageClear, false, Some(First))];
  }

  lemma ClearLinks(cal: Calendar, run: seq<Action>, w: nat) returns (more: seq<Action>)
    requires var s := Run(cal, Start, run);
             w in s.workers && !s.workers[w].checking && s.workers[w].pc == StageClear && Holds(s.db, s.workers[w])
    ensures var s := Run(cal, Start, run);
            var j := s.db.job.value;
            Run(cal, Start, more) ==
            State(s.db.(job := Some(j.(staged := j.staged.(links := {})))),
                  s.workers[w := s.workers[w].(pc := StageRead, bucketCursor := None, previous := map[])])
  {
    var t;
    more, t := Then(cal, run, Advance(w, Blank()));
  }

  lemma FirstBucketPage(cal: Calendar)
    ensures IsBucketPage(BucketsIn(FirstEntries(cal)), None, 500, FirstBuckets(cal))
  {
    var bs := BucketsIn(FirstEntries(cal));
    forall b
      ensures b in bs <==> b in FirstBuckets(cal)
    {
      if b in FirstBuckets(cal) {
        assert b in BucketsOf(cal, First, 0);
        assert Entry(b, 0, 0) in EntriesOf(cal, First, 0);
        assert Entry(b, 0, 0) in FirstEntries(cal);
      }
    }
  }

  lemma NoBucketsLeft(cal: Calendar)
    ensures IsBucketPage(BucketsIn(FirstEntries(cal)), Some(FirstBuckets(cal)[2]), 500, [])
  {
    FirstBucketPage(cal);
    forall b | b in BucketsIn(FirstEntries(cal))
      ensures !BucketBefore(FirstBuckets(cal)[2], b)
    {
      assert b in FirstBuckets(cal);
    }
  }

  lemma ReadBuckets(cal: Calendar, run: seq<Action>, w: nat) returns (more: seq<Action>)
    requires var s := Run(cal, Start, run);
             && w in s.workers && !s.workers[w].checking && s.workers[w].pc == StageRead && s.workers[w].bucketCursor == None
             && Holds(s.db, s.workers[w]) && s.db.job.value.staged.buckets == BucketsIn(FirstEntries(cal))
    ensures var s := Run(cal, Start, run);
            Run(cal, Start, more) == State(s.db, s.workers[w := s.workers[w].(pc := StageWrite(FirstBuckets(cal)))])
  {
    var t;
    FirstBucketPage(cal);
    more, t := Then(cal, run, Advance(w, BucketRows(FirstBuckets(cal))));
  }

  lemma StageBuckets(cal: Calendar, run: seq<Action>, w: nat) returns (more: seq<Action>)
    requires var s := Run(cal, Start, run);
             && w in s.workers && !s.workers[w].checking && s.workers[w].pc == StageWrite(FirstBuckets(cal))
             && Holds(s.db, s.workers[w]) && s.db.job.value.staged.links == {} && s.workers[w].previous == map[]
    ensures var s := Run(cal, Start, run);
            var t := Run(cal, Start, more);
            && w in t.workers && t.workers == s.workers[w := t.workers[w]] && t.db == s.db
            && t.workers[w] == s.workers[w].(pc := StageRead, bucketCursor := Some(FirstBuckets(cal)[2]), previous := t.workers[w].previous)
  {
    var t;
    more, t := Then(cal, run, Advance(w, Blank()));
    var bs := FirstBuckets(cal);
    OneOfEachKind(bs[0], bs[1], bs[2]);
    assert bs == [bs[0], bs[1], bs[2]];
  }

  lemma OneOfEachKind(a: Bucket, b: Bucket, c: Bucket)
    requires a.kind != b.kind && b.kind != c.kind && a.kind != c.kind
    ensures StagedLinks({}, map[], [a, b, c]) == {}
  {
    var none: set<(Bucket, Bucket)> := {};
    assert [a, b, c][1..] == [b, c] && [b, c][1..] == [c] && [c][1..] == [];
    assert none + {} == none;
    var one := (map[])[a.kind := a];
    var two := one[b.kind := b];
    assert StagedLinks(none, map[], [a, b, c]) == StagedLinks(none, one, [b, c]);
    assert StagedLinks(none, one, [b, c]) == StagedLinks(none, two, [c]);
    assert StagedLinks(none, two, [c]) == StagedLinks(none, two[c.kind := c], []);
  }

  lemma ReadNoBuckets(cal: Calendar, run: seq<Action>, w: nat) returns (more: seq<Action>)
    requires var s := Run(cal, Start, run);
             && w in s.workers && !s.workers[w].checking && s.workers[w].pc == StageRead
             && s.workers[w].bucketCursor == Some(FirstBuckets(cal)[2])
             && Holds(s.db, s.workers[w]) && s.db.job.value.staged.buckets == BucketsIn(FirstEntries(cal))
    ensures var s := Run(cal, Start, run);
            Run(cal, Start, more) == State(s.db, s.workers[w := s.workers[w].(pc := MarkReady, checking := true)])
  {
    var t;
    NoBucketsLeft(cal);
    more, t := Then(cal, run, Advance(w, BucketRows([])));
  }

  function ReadyJob(cal: Calendar, token: Option<nat>, lease: int, active: set<nat>): Job {
    var j := BuiltJob(cal);
    j.(status := Ready, token := token, leaseUntil := lease, staged := j.staged.(active := active))
  }

  /** The first worker stages the links and marks the job ready. */
  lemma MadeReady(cal: Calendar) returns (run: seq<Action>)
    ensures var s := Run(cal, Start, run);
            && s.db == Rebuild(ReadyJob(cal, None, 0, {0}))
            && 1 in s.workers && 2 in s.workers && s.workers[2] == Builder(SnapClear, false, Some(First))
            && s.workers[1].pc == Claim && !s.workers[1].checking && s.workers[1].generation == 10
            && s.workers[1].revision == 1 && s.workers[1].zone == 0
  {
    run := Snapped(cal);
    run := ClearLinks(cal, run, 1);
    run := ReadBuckets(cal, run, 1);
    run := StageBuckets(cal, run, 1);
    run := ReadNoBuckets(cal, run, 1);
    run := Check(cal, run, 1);
    run := MarkingReady(cal, run, 1);
    run := Check(cal, run, 1);
  }

  lemma MarkingReady(cal: Calendar, run: seq<Action>, w: nat) returns (more: seq<Action>)
    requires var s := Run(cal, Start, run);
             && w in s.workers && !s.workers[w].checking && s.workers[w].pc == MarkReady && Holds(s.db, s.workers[w])
             && s.db.job.value.status == Building && s.db.job.value.revision == s.workers[w].revision
    ensures var s := Run(cal, Start, run);
            Run(cal, Start, more) ==
            State(s.db.(job := Some(s.db.job.value.(status := Ready))),
                  s.workers[w := s.workers[w].(pc := Claim, checking := true)])
  {
    var t;
    more, t := Then(cal, run, Advance(w, Blank()));
  }

  lemma Publishing(cal: Calendar, run: seq<Action>, w: nat) returns (more: seq<Action>)
    requires var s := Run(cal, Start, run);
             && w in s.workers && !s.workers[w].checking && s.workers[w].pc == Publish && Owns(s.db, s.workers[w])
    ensures var s := Run(cal, Start, run);
            Run(cal, Start, more) ==
            State(s.db.(job := Some(s.db.job.value.(leaseUntil := LEASE)), live := Published(s.db.job.value.staged)),
                  s.workers[w := s.workers[w].(pc := Finish)])
  {
    var t;
    more, t := Then(cal, run, Advance(w, Blank()));
  }

  lemma Finishing(cal: Calendar, run: seq<Action>, w: nat) returns (more: seq<Action>)
    requires var s := Run(cal, Start, run);
             && w in s.workers && !s.workers[w].checking && s.workers[w].pc == Finish && Owns(s.db, s.workers[w])
             && s.db.revision == s.workers[w].revision
    ensures var s := Run(cal, Start, run);
            Run(cal, Start, more) ==
            State(s.db.(job := None, projection := Some(Projection(Clean, s.workers[w].zone, s.workers[w].revision))),
                  s.workers[w := s.workers[w].(pc := Idle)])
  {
    var t;
    more, t := Then(cal, run, Advance(w, Blank()));
  }

  /** ... and claims the publication. */
  lemma Claimed(cal: Calendar) returns (run: seq<Action>)
    ensures var s := Run(cal, Start, run);
            && s.db == Rebuild(ReadyJob(cal, Some(20), LEASE, {0})).(used := {10, 20})
            && 1 in s.workers && 2 in s.workers && s.workers[2] == Builder(SnapClear, false, Some(First))
            && s.workers[1].pc == Publish && !s.workers[1].checking && s.workers[1].generation == 10
            && s.workers[1].revision == 1 && s.workers[1].zone == 0 && s.workers[1].token == Some(20)
  {
    run := MadeReady(cal);
    var s;
    run, s := Then(cal, run, Advance(1, Draw(20)));
    assert s.db == Rebuild(ReadyJob(cal, Some(20), LEASE, {0})).(used := {10, 20});
    run := Check(cal, run, 1);
  }

  /** Without the assumption on staging the main theorem fails: there is a run in which a second worker empties the
      snapshot of a ready job, after which the projection is clean at the current revision and the live tables miss
      every neuron. */
  lemma TwoBuildersPublishTooLittle(cal: Calendar) returns (run: seq<Action>)
    ensures var db := Run(cal, Start, run).db;
            && db.projection == Some(Projection(Clean, 0, db.revision))
            && db.live.entries == {}
            && db.live != Plan(cal, db.neurons, 0)
            && !ExclusiveRun(cal, Start, run)
  {
    run := Claimed(cal);
    run := ClearSnapshot(cal, run, 2);
    assert Run(cal, Start, run).db == Rebuild(ReadyJob(cal, Some(20), LEASE, {})).(used := {10, 20});
    run := Publishing(cal, run, 1);
    run := Finishing(cal, run, 1);
    MissesFirst(cal);
    if ExclusiveRun(cal, Start, run) {
      CleanMeansLive(cal, Start, run);
    }
  }

  lemma MissesFirst(cal: Calendar)
    ensures FirstEntries(cal) != {}
    ensures Published(Staged(FirstEntries(cal), BucketsIn(FirstEntries(cal)), {}, {})).entries == {}
  {
    assert Entry(BucketOf(cal, First, Day, 0), 0, 0) in EntriesOf(cal, First, 0);
    assert Entry(BucketOf(cal, First, Day, 0), 0, 0) in FirstEntries(cal);
  }

  /* ---------- the unfenced failure mark ---------- */

  lemma ReadEmpty(cal: Calendar, run: seq<Action>, w: nat) returns (more: seq<Action>)
    requires var s := Run(cal, Start, run);
             && w in s.workers && !s.workers[w].checking && s.db.neurons == {}
             && (s.workers[w].pc == BuildRead || s.workers[w].pc == SnapRead)
    ensures var s := Run(cal, Start, run);
            var pc := if s.workers[w].pc == BuildRead then SnapClear else StageClear;
            Run(cal, Start, more) == State(s.db, s.workers[w := s.workers[w].(pc := pc, checking := true)])
  {
    var t;
    NothingToRead(Run(cal, Start, run).workers[w].cursor);
    ReadPage(cal, Run(cal, Start, run), w, {});
    more, t := Then(cal, run, Advance(w, Rows({})));
  }

  lemma NothingToRead(cursor: Option<Neuron>)
    ensures IsPage({}, cursor, 500, {})
  {
  }

  lemma ReadEmptyBuckets(cal: Calendar, run: seq<Action>, w: nat) returns (more: seq<Action>)
    requires var s := Run(cal, Start, run);
             && w in s.workers && !s.workers[w].checking && s.workers[w].pc == StageRead
             && Holds(s.db, s.workers[w]) && s.db.job.value.staged.buckets == {}
    ensures var s := Run(cal, Start, run);
            Run(cal, Start, more) == State(s.db, s.workers[w := s.workers[w].(pc := MarkReady, checking := true)])
  {
    var t;
    assert AfterBucket({}, Run(cal, Start, run).workers[w].bucketCursor) == {};
    more, t := Then(cal, run, Advance(w, BucketRows([])));
  }

  lemma Claiming(cal: Calendar, run: seq<Action>, w: nat, id: nat) returns (more: seq<Action>)
    requires var s := Run(cal, Start, run);
             && w in s.workers && !s.workers[w].checking && s.workers[w].pc == Claim && Holds(s.db, s.workers[w])
             && s.db.job.value.status == Ready && s.db.job.value.revision == s.workers[w].revision
             && s.db.job.value.token == None && id !in s.db.used
    ensures var s := Run(cal, Start, run);
            Run(cal, Start, more) ==
            State(s.db.(job := Some(s.db.job.value.(token := Some(id), leaseUntil := LEASE)), used := s.db.used + {id}),
                  s.workers[w := s.workers[w].(pc := Publish, checking := true, token := Some(id))])
  {
    var t;
    more, t := Then(cal, run, Advance(w, Draw(id)));
  }

  function Nobody(): Worker { Worker(0, Idle, false, 0, 0, None, None, map[], None) }

  /** A worker begins on the empty database, finds no job that serves, and creates one. */
  lemma Creates(cal: Calendar, run: seq<Action>, w: nat, id: nat) returns (more: seq<Action>)
    requires var s := Run(cal, Start, run);
             && w !in s.workers && s.db.revision == 0 && id !in s.db.used
             && (s.db.job.None? || s.db.job.value.status == Failed)
    ensures var s := Run(cal, Start, run);
            Run(cal, Start, more) ==
            State(s.db.(job := Some(Job(id, 0, Building, None, 0, None, 0, NothingStaged)), used := s.db.used + {id},
                        projection := Some(Projection(Rebuilding, 0, 0))),
                  s.workers[w := Nobody().(pc := BuildRead, checking := true, generation := id)])
  {
    var s := Run(cal, Start, run);
    var t;
    more, t := Then(cal, run, Begin(w, 0));
    more, t := Then(cal, more, Advance(w, Blank()));
    assert t == State(s.db, s.workers[w := Nobody().(pc := Replacing)]);
    more, t := Then(cal, more, Advance(w, Blank()));
    assert t == State(s.db, s.workers[w := Nobody().(pc := Creating(0))]);
    more, t := Then(cal, more, Advance(w, Draw(id)));
  }

  lemma Fails(cal: Calendar, run: seq<Action>, w: nat) returns (more: seq<Action>)
    requires var s := Run(cal, Start, run);
             && w in s.workers && Trying(s.workers[w].pc) && Holds(s.db, s.workers[w])
             && s.db.job.value.token == s.workers[w].token
    ensures var s := Run(cal, Start, run);
            Run(cal, Start, more) ==
            State(s.db.(job := Some(s.db.job.value.(status := Failed))),
                  s.workers[w := s.workers[w].(pc := FailProjection, checking := false)])
  {
    var s := Run(cal, Start, run);
    var t;
    more, t := Then(cal, run, Throw(w));
    assert t == State(s.db, s.workers[w := s.workers[w].(pc := FailJob, checking := false)]);
    more, t := Then(cal, more, Advance(w, Blank()));
  }

  ghost predicate FreshBuilder(s: State, w: nat) {
    && w in s.workers && s.workers[w] == Nobody().(pc := BuildRead, checking := true, generation := s.workers[w].generation)
    && s.db.neurons == {} && s.db.revision == 0
    && s.db.job == Some(Job(s.workers[w].generation, 0, Building, None, 0, None, 0, NothingStaged))
  }

  lemma SnapshotsEmpty(cal: Calendar, run: seq<Action>, w: nat) returns (more: seq<Action>)
    requires FreshBuilder(Run(cal, Start, run), w)
    ensures var s := Run(cal, Start, run);
            Run(cal, Start, more) == State(s.db, s.workers[w := s.workers[w].(pc := StageClear, checking := false)])
  {
    more := Check(cal, run, w);
    more := ReadEmpty(cal, more, w);
    more := Check(cal, more, w);
    more := ClearSnapshot(cal, more, w);
    more := Check(cal, more, w);
    more := ReadEmpty(cal, more, w);
    more := Check(cal, more, w);
  }

  lemma StagesEmpty(cal: Calendar, run: seq<Action>, w: nat) returns (more: seq<Action>)
    requires FreshBuilder(Run(cal, Start, run), w)
    ensures var s := Run(cal, Start, run);
            Run(cal, Start, more) == State(s.db.(job := Some(s.db.job.value.(status := Ready))),
                                           s.workers[w := s.workers[w].(pc := Claim, checking := false)])
  {
    more := SnapshotsEmpty(cal, run, w);
    more := ClearLinks(cal, more, w);
    more := ReadEmptyBuckets(cal, more, w);
    more := Check(cal, more, w);
    more := MarkingReady(cal, more, w);
    more := Check(cal, more, w);
  }

  lemma RebuildsEmpty(cal: Calendar, run: seq<Action>, w: nat, token: nat) returns (more: seq<Action>)
    requires FreshBuilder(Run(cal, Start, run), w) && token !in Run(cal, Start, run).db.used
    ensures var s, t := Run(cal, Start, run), Run(cal, Start, more);
            && t.db.projection == Some(Projection(Clean, 0, 0)) && t.db.job == None && t.db.revision == 0 && t.db.neurons == {}
            && t.workers.Keys == s.workers.Keys && forall v | v in s.workers && v != w :: t.workers[v] == s.workers[v]
  {
    more := StagesEmpty(cal, run, w);
    more := Claiming(cal, more, w, token);
    more := Check(cal, more, w);
    more := Publishing(cal, more, w);
    more := Finishing(cal, more, w);
  }

  ghost predicate LeftBehind(s: State, w: nat, generation: nat) {
    && w in s.workers && s.workers[w] == Nobody().(pc := FailProjection, generation := generation)
    && s.db.projection == Some(Projection(Clean, 0, 0)) && s.db.job == None && s.db.revision == 0
  }

  /** One worker fails its job and stops before the second failure statement; another rebuilds and publishes. */
  lemma Overtaken(cal: Calendar) returns (run: seq<Action>)
    ensures LeftBehind(Run(cal, Start, run), 2, 10)
  {
    run := Creates(cal, [], 2, 10);
    run := Fails(cal, run, 2);
    var s := Run(cal, Start, run);
    assert s.workers == map[2 := Nobody().(pc := FailProjection, generation := 10)];
    run := Creates(cal, run, 1, 11);
    assert Run(cal, Start, run).workers[2] == s.workers[2];
    run := RebuildsEmpty(cal, run, 1, 20);
  }

  lemma MarksBroken(cal: Calendar, s: State, w: nat, generation: nat)
    requires LeftBehind(s, w, generation)
    ensures Fenced(s.db, s.workers[w])
    ensures Next(cal, s, Advance(w, Blank())).db.projection == Some(Projection(Broken, 0, 0))
  {
  }

  /** Fencing has one hole, and it errs on the safe side: a worker whose job was replaced and published by
      another can still turn the clean projection to 'failed', because its two failure statements are separate. */
  lemma LateFailureMark(cal: Calendar) returns (run: seq<Action>, last: Action)
    ensures last.Advance? && last.worker in Run(cal, Start, run).workers
    ensures Fenced(Run(cal, Start, run).db, Run(cal, Start, run).workers[last.worker])
    ensures Run(cal, Start, run).db.projection == Some(Projection(Clean, 0, 0))
    ensures Run(cal, Start, run + [last]).db.projection == Some(Projection(Broken, 0, 0))
  {
    run := Overtaken(cal);
    last := Advance(2, Blank());
    MarksBroken(cal, Run(cal, Start, run), 2, 10);
    var more, t := Then(cal, run, last);
  }
}
