/** Safety of the rebuild over whole runs: a clean projection is the plan of the active neurons. */
module RebuildSafety {
  import opened Options
  import opened TimeBuckets
  import opened TimeProjection

  /* ---------- what a step of one worker leaves of another worker's invariant ---------- */

  lemma BystanderOfSourceChange(cal: Calendar, db: Db, after: Db, k: Worker)
    requires DbInv(cal, db) && WorkerInv(cal, db, k)
    requires after.revision == db.revision + 1 && after.job == db.job && after.used == db.used
    ensures WorkerInv(cal, after, k)
  {
  }

  /** The job row may go, be replaced under a fresh generation, or gain entries; while it is current, a worker that
      restages the same generation must see its staging rows untouched, and a finisher the tables it has published. */
  ghost predicate JobStep(db: Db, after: Db, k: Worker) {
    && after.neurons == db.neurons && after.revision == db.revision && db.used <= after.used
    && (after.job.Some? ==>
          || after.job.value.generation !in db.used
          || (&& db.job.Some?
              && var j, i := db.job.value, after.job.value;
              && i.generation == j.generation && i.zone == j.zone && i.revision == j.revision
              && j.staged.entries <= i.staged.entries
              && (k.generation == j.generation && Restages(k.pc) && j.revision == db.revision ==> i.staged == j.staged)
              && (k.token.Some? && i.token == k.token && i.status == Ready ==>
                    j.token == k.token && j.status == Ready && after.live == db.live)))
  }

  lemma BystanderOfJobStep(cal: Calendar, db: Db, after: Db, k: Worker)
    requires DbInv(cal, db) && DbInv(cal, after) && WorkerInv(cal, db, k) && JobStep(db, after, k)
    ensures WorkerInv(cal, after, k)
  {
    if after.job.Some? && after.job.value.generation in db.used {
      var j, i := db.job.value, after.job.value;
      if HasGeneration(k.pc) && Holds(after, k) && k.revision == after.revision {
        assert Progress(cal, db, j, k);
        match k.pc {
          case BuildWrite(page) => assert PageOf(after, k.cursor, page);
          case SnapWrite(page) => assert PageOf(after, k.cursor, page);
          case StageWrite(page) =>
          case _ =>
        }
      }
    }
  }

  /** Replace one worker and the database, given what each bystander needs. */
  lemma Assemble(cal: Calendar, s: State, w: nat, k: Worker, after: Db)
    requires Inv(cal, s) && w in s.workers
    requires DbInv(cal, after) && WorkerInv(cal, after, k)
    requires forall v | v in s.workers && v != w :: JobStep(s.db, after, s.workers[v])
    requires k.token == s.workers[w].token || (k.token.Some? && k.token.value !in s.db.used)
    ensures Inv(cal, State(after, s.workers[w := k]))
  {
    forall v | v in s.workers && v != w
      ensures WorkerInv(cal, after, s.workers[v])
    {
      BystanderOfJobStep(cal, s.db, after, s.workers[v]);
    }
  }

  lemma KeepDb(cal: Calendar, s: State, w: nat, k: Worker)
    requires Inv(cal, s) && w in s.workers && k.token == s.workers[w].token
    requires WorkerInv(cal, s.db, k)
    ensures Inv(cal, Put(s, w, k))
  {
    Assemble(cal, s, w, k, s.db);
  }

  /* ---------- changes to the neurons ---------- */

  lemma IngestKeepsInv(cal: Calendar, s: State, n: Neuron, zone: Zone)
    requires Inv(cal, s) && n.id !in Ids(s.db.neurons)
    ensures Inv(cal, s.(db := IngestStep(cal, s.db, n, zone)))
  {
    var db, after := s.db, IngestStep(cal, s.db, n, zone);
    assert UniqueIds(after.neurons) by {
      assert forall m | m in db.neurons :: m.id in Ids(db.neurons);
    }
    if after.projection.value.status == Clean {
      var z := if db.projection.Some? then db.projection.value.zone else zone;
      assert db.live == Plan(cal, db.neurons, zone) by {
        if db.projection.None? { EmptyPlan(cal, zone); }
      }
      IncrementalIngestIsPlan(cal, db.neurons, n, zone);
      assert after.live == Plan(cal, after.neurons, zone);
    }
    assert DbInv(cal, after);
    forall w | w in s.workers
      ensures WorkerInv(cal, after, s.workers[w])
    {
      BystanderOfSourceChange(cal, db, after, s.workers[w]);
    }
  }

  lemma EmptyPlan(cal: Calendar, zone: Zone)
    ensures Plan(cal, {}, zone) == NoTables
  {
    assert PlanEntries(cal, {}, zone) == {};
  }

  lemma MutateKeepsInv(cal: Calendar, s: State, ns: set<Neuron>, live: Tables)
    requires Inv(cal, s) && UniqueIds(ns)
    ensures Inv(cal, s.(db := MutateStep(s.db, ns, live)))
  {
    var after := MutateStep(s.db, ns, live);
    forall w | w in s.workers
      ensures WorkerInv(cal, after, s.workers[w])
    {
      BystanderOfSourceChange(cal, s.db, after, s.workers[w]);
    }
  }

  /* ---------- the build phase ---------- */

  ghost predicate NoOtherRestaging(s: State, w: nat) {
    forall v | Restaging(s, v) :: v == w
  }

  /** Bystanders of a step that writes staging rows of its own job. */
  lemma BystandersOfBuilder(s: State, w: nat, after: Db)
    requires w in s.workers && Holds(s.db, s.workers[w])
    requires after.neurons == s.db.neurons && after.revision == s.db.revision && after.used == s.db.used
    requires after.live == s.db.live && after.job.Some?
    requires after.job.value.generation == s.db.job.value.generation
    requires after.job.value.zone == s.db.job.value.zone && after.job.value.revision == s.db.job.value.revision
    requires s.db.job.value.staged.entries <= after.job.value.staged.entries
    requires after.job.value.token == s.db.job.value.token
    requires after.job.value.token.None? || after.job.value.status == s.db.job.value.status
    requires s.db.job.value.revision == s.db.revision ==>
               after.job.value.staged == s.db.job.value.staged || NoOtherRestaging(s, w)
    ensures forall v | v in s.workers && v != w :: JobStep(s.db, after, s.workers[v])
  {
    forall v | v in s.workers && v != w
      ensures JobStep(s.db, after, s.workers[v])
    {
      if s.workers[v].generation == s.db.job.value.generation && Restages(s.workers[v].pc)
         && s.db.job.value.revision == s.db.revision {
        assert Restaging(s, v);
      }
    }
  }

  lemma ReadKeepsInv(cal: Calendar, s: State, w: nat, inp: Input)
    requires Inv(cal, s) && w in s.workers && !s.workers[w].checking
    requires s.workers[w].pc.BuildRead? || s.workers[w].pc.SnapRead?
    ensures Inv(cal, WorkerStep(cal, s, w, inp))
  {
    var k, db := s.workers[w], s.db;
    if inp.limit != 0 && IsPage(db.neurons, k.cursor, inp.limit, inp.neurons) {
      var next := WorkerStep(cal, s, w, inp).workers[w];
      if inp.neurons == {} {
        assert After(db.neurons, k.cursor) == {};
        assert UpTo(db.neurons, k.cursor) == db.neurons;
      } else {
        assert PageOf(db, k.cursor, inp.neurons);
      }
      KeepDb(cal, s, w, next);
    }
  }

  lemma BucketsOfUnion(d: set<Entry>, e: set<Entry>)
    ensures BucketsIn(d + e) == BucketsIn(d) + BucketsIn(e)
  {
  }

  lemma PageOfEntries(cal: Calendar, ns: set<Neuron>, cursor: Option<Neuron>, limit: nat, page: set<Neuron>,
                      zone: Zone, entries: set<Entry>)
    requires page != {} && IsPage(ns, cursor, limit, page)
    requires PlanEntries(cal, UpTo(ns, cursor), zone) <= entries <= PlanEntries(cal, ns, zone)
    ensures PlanEntries(cal, UpTo(ns, Some(LastOf(page))), zone) <= entries + PlanEntries(cal, page, zone)
    ensures entries + PlanEntries(cal, page, zone) <= PlanEntries(cal, ns, zone)
  {
    PageAdvances(ns, cursor, limit, page);
    PlanOfUnion(cal, UpTo(ns, cursor), page, zone);
    PlanOfPart(cal, page, ns, zone);
  }

  lemma PlanOfPart(cal: Calendar, part: set<Neuron>, ns: set<Neuron>, zone: Zone)
    requires part <= ns
    ensures PlanEntries(cal, part, zone) <= PlanEntries(cal, ns, zone)
  {
  }

  /** Once all entries are there, writing a page of them again changes nothing. */
  lemma PageAlreadyStaged(cal: Calendar, db: Db, j: Job, page: set<Neuron>)
    requires EntriesComplete(cal, db, j) && page <= db.neurons
    ensures j.staged.entries + PlanEntries(cal, page, j.zone) == j.staged.entries
    ensures j.staged.buckets + BucketsIn(PlanEntries(cal, page, j.zone)) == j.staged.buckets
  {
    PlanOfPart(cal, page, db.neurons, j.zone);
    BucketsOfUnion(j.staged.entries, PlanEntries(cal, page, j.zone));
  }

  lemma RestagingIsComplete(cal: Calendar, db: Db, k: Worker)
    requires WorkerInv(cal, db, k) && Holds(db, k) && Restages(k.pc) && k.revision == db.revision
    ensures EntriesComplete(cal, db, db.job.value)
  {
  }

  lemma PageIsPart(db: Db, cursor: Option<Neuron>, page: set<Neuron>)
    requires PageOf(db, cursor, page)
    ensures page <= db.neurons
  {
  }

  /** A page of entries leaves the staging rows of a restaging worker, and of a ready job, as they were. */
  lemma PageSparesOthers(cal: Calendar, s: State, w: nat, page: set<Neuron>)
    requires Inv(cal, s) && page != {}
    requires w in s.workers && s.workers[w].pc == BuildWrite(page) && Holds(s.db, s.workers[w])
    requires s.db.job.value.revision == s.db.revision
    ensures BuildStep(cal, s, w, page).db.job.value.staged == s.db.job.value.staged
            || (NoOtherRestaging(s, w) && s.db.job.value.status != Ready)
  {
    var k, db := s.workers[w], s.db;
    var j := db.job.value;
    assert WorkerInv(cal, db, k) && PageOf(db, k.cursor, page);
    PageIsPart(db, k.cursor, page);
    if j.status == Ready {
      PageAlreadyStaged(cal, db, j, page);
    } else if !NoOtherRestaging(s, w) {
      var v :| Restaging(s, v) && v != w;
      RestagingIsComplete(cal, db, s.workers[v]);
      PageAlreadyStaged(cal, db, j, page);
    }
  }

  lemma BuiltJobSound(cal: Calendar, s: State, w: nat, page: set<Neuron>)
    requires Inv(cal, s) && page != {}
    requires w in s.workers && !s.workers[w].checking && s.workers[w].pc == BuildWrite(page) && Holds(s.db, s.workers[w])
    ensures var next := BuildStep(cal, s, w, page);
            DbInv(cal, next.db) && WorkerInv(cal, next.db, next.workers[w])
  {
    var k, db := s.workers[w], s.db;
    var j, next := db.job.value, BuildStep(cal, s, w, page);
    BucketsOfUnion(j.staged.entries, PlanEntries(cal, page, k.zone));
    if k.revision == db.revision {
      PageSparesOthers(cal, s, w, page);
      assert PageOf(db, k.cursor, page);
      var limit: nat :| IsPage(db.neurons, k.cursor, limit, page);
      PageOfEntries(cal, db.neurons, k.cursor, limit, page, k.zone, j.staged.entries);
      assert JobSound(cal, next.db, next.db.job.value);
    }
  }

  lemma BuildKeepsInv(cal: Calendar, s: State, w: nat, page: set<Neuron>)
    requires Inv(cal, s)
    requires w in s.workers && !s.workers[w].checking && s.workers[w].pc == BuildWrite(page)
    ensures Inv(cal, BuildStep(cal, s, w, page))
  {
    var next := BuildStep(cal, s, w, page);
    if !Holds(s.db, s.workers[w]) || page == {} {
      KeepDb(cal, s, w, next.workers[w]);
    } else {
      BuiltJobSound(cal, s, w, page);
      if s.db.job.value.revision == s.db.revision {
        PageSparesOthers(cal, s, w, page);
      }
      BystandersOfBuilder(s, w, next.db);
      Assemble(cal, s, w, next.workers[w], next.db);
    }
  }

  /** A worker that empties the snapshot meets nobody who has emptied it before and is not through. */
  lemma ClearKeepsInv(cal: Calendar, s: State, w: nat, inp: Input)
    requires Inv(cal, s) && w in s.workers && !s.workers[w].checking
    requires s.workers[w].pc.SnapClear? || s.workers[w].pc.StageClear?
    requires ExclusiveStaging(s) && ExclusiveStaging(WorkerStep(cal, s, w, inp))
    ensures Inv(cal, WorkerStep(cal, s, w, inp))
  {
    var k, db, t := s.workers[w], s.db, WorkerStep(cal, s, w, inp);
    var next, after := t.workers[w], t.db;
    if !Holds(db, k) {
      KeepDb(cal, s, w, next);
    } else {
      assert db.job.value.revision == db.revision ==> Restaging(t, w);
      forall v | Restaging(s, v) ensures v == w {
        assert v == w || Restaging(t, v);
      }
      var i := after.job.value;
      assert UpTo(db.neurons, None) == {};
      assert i.staged.buckets - AfterBucket(i.staged.buckets, None) == {};
      assert Links({}) == {};
      BystandersOfBuilder(s, w, after);
      Assemble(cal, s, w, next, after);
    }
  }

  lemma SnapPageIds(db: Db, cursor: Option<Neuron>, page: set<Neuron>)
    requires PageOf(db, cursor, page)
    ensures Ids(UpTo(db.neurons, Some(LastOf(page)))) == Ids(UpTo(db.neurons, cursor)) + Ids(page)
  {
    var limit: nat :| IsPage(db.neurons, cursor, limit, page);
    PageAdvances(db.neurons, cursor, limit, page);
    assert Ids(UpTo(db.neurons, cursor) + page) == Ids(UpTo(db.neurons, cursor)) + Ids(page);
  }

  lemma SnappedJobSound(cal: Calendar, s: State, w: nat, page: set<Neuron>)
    requires Inv(cal, s) && ExclusiveStaging(s)
    requires w in s.workers && !s.workers[w].checking && s.workers[w].pc == SnapWrite(page)
    requires !SnapStep(s, w, page).workers[w].pc.FailJob?
    ensures var next := SnapStep(s, w, page);
            DbInv(cal, next.db) && WorkerInv(cal, next.db, next.workers[w])
  {
    var k, db := s.workers[w], s.db;
    if k.revision == db.revision {
      assert Restaging(s, w);
      assert PageOf(db, k.cursor, page);
      SnapPageIds(db, k.cursor, page);
    }
  }

  lemma SnapKeepsInv(cal: Calendar, s: State, w: nat, page: set<Neuron>)
    requires Inv(cal, s) && ExclusiveStaging(s)
    requires w in s.workers && !s.workers[w].checking && s.workers[w].pc == SnapWrite(page)
    ensures Inv(cal, SnapStep(s, w, page))
  {
    var next := SnapStep(s, w, page);
    if next.workers[w].pc.FailJob? {
      KeepDb(cal, s, w, next.workers[w]);
    } else {
      assert s.db.job.value.revision == s.db.revision ==> Restaging(s, w);
      SnappedJobSound(cal, s, w, page);
      BystandersOfBuilder(s, w, next.db);
      Assemble(cal, s, w, next.workers[w], next.db);
    }
  }

  lemma StageReadKeepsInv(cal: Calendar, s: State, w: nat, inp: Input)
    requires Inv(cal, s) && w in s.workers && !s.workers[w].checking && s.workers[w].pc.StageRead?
    ensures Inv(cal, StageReadStep(s, w, inp))
  {
    var k, db := s.workers[w], s.db;
    if StageReadStep(s, w, inp) != s {
      if Holds(db, k) && inp.buckets == [] {
        var bs := db.job.value.staged.buckets;
        assert AfterBucket(bs, k.bucketCursor) == {};
        assert bs - AfterBucket(bs, k.bucketCursor) == bs;
      }
      KeepDb(cal, s, w, StageReadStep(s, w, inp).workers[w]);
    }
  }

  lemma StagedZone(cal: Calendar, db: Db, j: Job)
    requires EntriesComplete(cal, db, j)
    ensures InZone(j.staged.buckets, j.zone)
  {
  }

  lemma StageKeepsInv(cal: Calendar, s: State, w: nat, page: seq<Bucket>)
    requires Inv(cal, s) && ExclusiveStaging(s)
    requires w in s.workers && !s.workers[w].checking && s.workers[w].pc == StageWrite(page)
    ensures Inv(cal, StageStep(s, w, page))
  {
    var k, db := s.workers[w], s.db;
    var next, after := StageStep(s, w, page).workers[w], StageStep(s, w, page).db;
    if !Holds(db, k) || page == [] {
      KeepDb(cal, s, w, next);
    } else {
      assert s.db.job.value.revision == s.db.revision ==> Restaging(s, w);
      var j := db.job.value;
      if k.revision == db.revision {
        var bs := j.staged.buckets;
        var limit: nat :| IsBucketPage(bs, k.bucketCursor, limit, page);
        StagedZone(cal, db, j);
        BucketPageAdvances(bs, k.bucketCursor, limit, page);
        StagePage(bs - AfterBucket(bs, k.bucketCursor), k.previous, page, j.zone);
      }
      BystandersOfBuilder(s, w, after);
      Assemble(cal, s, w, next, after);
    }
  }

  lemma MarkReadyKeepsInv(cal: Calendar, s: State, w: nat, inp: Input)
    requires Inv(cal, s) && ExclusiveStaging(s)
    requires w in s.workers && !s.workers[w].checking && s.workers[w].pc.MarkReady?
    ensures Inv(cal, WorkerStep(cal, s, w, inp))
  {
    var k, db := s.workers[w], s.db;
    var next, after := WorkerStep(cal, s, w, inp).workers[w], WorkerStep(cal, s, w, inp).db;
    if Holds(db, k) && db.job.value.status == Building && db.job.value.revision == k.revision {
      assert s.db.job.value.revision == s.db.revision ==> Restaging(s, w);
      Assemble(cal, s, w, next, after);
    } else {
      KeepDb(cal, s, w, next);
    }
  }

  /* ---------- deciding, claiming, publishing, failing ---------- */

  lemma DecideKeepsInv(cal: Calendar, s: State, w: nat, inp: Input)
    requires Inv(cal, s) && w in s.workers && !s.workers[w].checking
    requires s.workers[w].pc.Deciding? || s.workers[w].pc.Replacing?
    ensures Inv(cal, WorkerStep(cal, s, w, inp))
  {
    KeepDb(cal, s, w, WorkerStep(cal, s, w, inp).workers[w]);
  }

  lemma CreateKeepsInv(cal: Calendar, s: State, w: nat, inp: Input)
    requires Inv(cal, s) && w in s.workers && !s.workers[w].checking && s.workers[w].pc.Creating?
    ensures Inv(cal, WorkerStep(cal, s, w, inp))
  {
    var db, next := s.db, WorkerStep(cal, s, w, inp);
    if inp.id !in db.used {
      assert UpTo(db.neurons, None) == {};
      assert PlanEntries(cal, {}, s.workers[w].zone) == {};
      assert BucketsIn({}) == {};
      Assemble(cal, s, w, next.workers[w], next.db);
    }
  }

  lemma ClaimedSound(cal: Calendar, s: State, w: nat, inp: Input)
    requires Inv(cal, s) && w in s.workers && !s.workers[w].checking && s.workers[w].pc.Claim? && inp.id !in s.db.used
    ensures var next := ClaimStep(s, w, inp);
            DbInv(cal, next.db) && WorkerInv(cal, next.db, next.workers[w])
  {
  }

  lemma BystandersOfClaim(cal: Calendar, s: State, w: nat, inp: Input)
    requires Inv(cal, s) && w in s.workers && s.workers[w].pc.Claim? && inp.id !in s.db.used
    ensures forall v | v in s.workers && v != w :: JobStep(s.db, ClaimStep(s, w, inp).db, s.workers[v])
  {
  }

  lemma ClaimKeepsInv(cal: Calendar, s: State, w: nat, inp: Input)
    requires Inv(cal, s) && w in s.workers && !s.workers[w].checking && s.workers[w].pc.Claim?
    ensures Inv(cal, WorkerStep(cal, s, w, inp))
  {
    if inp.id !in s.db.used {
      var next := ClaimStep(s, w, inp);
      ClaimedSound(cal, s, w, inp);
      BystandersOfClaim(cal, s, w, inp);
      Assemble(cal, s, w, next.workers[w], next.db);
    }
  }

  lemma CompletePublishesPlan(cal: Calendar, db: Db, j: Job)
    requires Complete(cal, db, j)
    ensures Published(j.staged) == Plan(cal, db.neurons, j.zone)
  {
    var st := j.staged;
    forall e | e in st.entries
      ensures e.neuronId in st.active
    {
      var n :| n in db.neurons && e in EntriesOf(cal, n, j.zone);
      assert n.id in Ids(db.neurons);
    }
    assert Published(st).entries == st.entries;
    assert Published(st).buckets == st.buckets;
  }

  lemma PublishKeepsInv(cal: Calendar, s: State, w: nat, inp: Input)
    requires Inv(cal, s) && w in s.workers && !s.workers[w].checking && s.workers[w].pc.Publish?
    ensures Inv(cal, WorkerStep(cal, s, w, inp))
  {
    var k, db, next := s.workers[w], s.db, WorkerStep(cal, s, w, inp);
    if Owns(db, k) {
      if k.revision == db.revision {
        CompletePublishesPlan(cal, db, db.job.value);
      }
      Assemble(cal, s, w, next.workers[w], next.db);
    } else {
      KeepDb(cal, s, w, next.workers[w]);
    }
  }

  lemma FinishKeepsInv(cal: Calendar, s: State, w: nat, inp: Input)
    requires Inv(cal, s) && w in s.workers && !s.workers[w].checking && s.workers[w].pc.Finish?
    ensures Inv(cal, WorkerStep(cal, s, w, inp))
  {
    var k, db, next := s.workers[w], s.db, WorkerStep(cal, s, w, inp);
    if db.revision == k.revision && Owns(db, k) {
      assert Progress(cal, db, db.job.value, k);
      Assemble(cal, s, w, next.workers[w], next.db);
    } else {
      KeepDb(cal, s, w, next.workers[w]);
    }
  }

  lemma FailKeepsInv(cal: Calendar, s: State, w: nat, inp: Input)
    requires Inv(cal, s) && w in s.workers && !s.workers[w].checking
    requires s.workers[w].pc.FailJob? || s.workers[w].pc.FailProjection?
    ensures Inv(cal, WorkerStep(cal, s, w, inp))
  {
    var next := WorkerStep(cal, s, w, inp);
    Assemble(cal, s, w, next.workers[w], next.db);
  }

  /* ---------- every step, every run ---------- */

  lemma WorkerStepKeepsInv(cal: Calendar, s: State, w: nat, inp: Input)
    requires Inv(cal, s) && w in s.workers
    requires ExclusiveStaging(s) && ExclusiveStaging(WorkerStep(cal, s, w, inp))
    ensures Inv(cal, WorkerStep(cal, s, w, inp))
  {
    var k := s.workers[w];
    if k.checking {
      KeepDb(cal, s, w, WorkerStep(cal, s, w, inp).workers[w]);
    } else {
      match k.pc {
        case Idle =>
        case Deciding(_) => DecideKeepsInv(cal, s, w, inp);
        case Replacing => DecideKeepsInv(cal, s, w, inp);
        case Creating(_) => CreateKeepsInv(cal, s, w, inp);
        case BuildRead => ReadKeepsInv(cal, s, w, inp);
        case BuildWrite(page) => BuildKeepsInv(cal, s, w, page);
        case SnapClear => ClearKeepsInv(cal, s, w, inp);
        case SnapRead => ReadKeepsInv(cal, s, w, inp);
        case SnapWrite(page) => SnapKeepsInv(cal, s, w, page);
        case StageClear => ClearKeepsInv(cal, s, w, inp);
        case StageRead => StageReadKeepsInv(cal, s, w, inp);
        case StageWrite(page) => StageKeepsInv(cal, s, w, page);
        case MarkReady => MarkReadyKeepsInv(cal, s, w, inp);
        case Claim => ClaimKeepsInv(cal, s, w, inp);
        case Publish => PublishKeepsInv(cal, s, w, inp);
        case Finish => FinishKeepsInv(cal, s, w, inp);
        case FailJob => FailKeepsInv(cal, s, w, inp);
        case FailProjection => FailKeepsInv(cal, s, w, inp);
      }
    }
  }

  lemma StepKeepsInv(cal: Calendar, s: State, a: Action)
    requires Inv(cal, s) && ExclusiveStaging(s) && ExclusiveStaging(Next(cal, s, a))
    ensures Inv(cal, Next(cal, s, a))
  {
    match a {
      case Ingest(n, zone) => if n.id !in Ids(s.db.neurons) { IngestKeepsInv(cal, s, n, zone); }
      case Mutate(ns, live) => if UniqueIds(ns) { MutateKeepsInv(cal, s, ns, live); }
      case Begin(w, zone) =>
      case Advance(w, inp) => if w in s.workers { WorkerStepKeepsInv(cal, s, w, inp); }
      case Throw(w) =>
        if w in s.workers && Trying(s.workers[w].pc) {
          KeepDb(cal, s, w, s.workers[w].(pc := FailJob, checking := false));
        }
      case Crash(w) =>
    }
  }

  lemma {:induction false} RunKeepsInv(cal: Calendar, s: State, actions: seq<Action>)
    requires Inv(cal, s) && ExclusiveRun(cal, s, actions)
    ensures Inv(cal, Run(cal, s, actions))
    decreases |actions|
  {
    if actions != [] {
      StepKeepsInv(cal, s, actions[0]);
      RunKeepsInv(cal, Next(cal, s, actions[0]), actions[1..]);
    }
  }

  /** The read side's test: clean, in the reader's zone, at the current source revision. */
  predicate Usable(db: Db, zone: Zone) {
    match db.projection
    case None => db.revision == 0
    case Some(p) => p.status == Clean && p.zone == zone && p.revision == db.revision
  }

  /** Safety over every interleaving of ingests, other changes to the neurons, and any number of workers that
      begin, resume, crash, throw, take over leases and replace each other's jobs: a projection marked clean
      holds exactly the plan of the neurons that are active now, and so does one the read side may use. */
  lemma CleanMeansLive(cal: Calendar, s: State, actions: seq<Action>)
    requires Init(s) && ExclusiveRun(cal, s, actions)
    ensures var db := Run(cal, s, actions).db;
            && (db.projection.Some? && db.projection.value.status == Clean ==>
                  db.live == Plan(cal, db.neurons, db.projection.value.zone))
            && forall zone | Usable(db, zone) :: db.live == Plan(cal, db.neurons, zone)
  {
    RunKeepsInv(cal, s, actions);
    forall zone { EmptyPlan(cal, zone); }
  }

  /** Wherever the builders crashed and resumed and whatever their pages, a job that is ready and still
      current has staged the one-pass plan, its snapshot and its links. */
  lemma ReadyMeansComplete(cal: Calendar, s: State, actions: seq<Action>)
    requires Init(s) && ExclusiveRun(cal, s, actions)
    ensures var db := Run(cal, s, actions).db;
            db.job.Some? && db.job.value.status == Ready && db.job.value.revision == db.revision ==>
              Published(db.job.value.staged) == Plan(cal, db.neurons, db.job.value.zone)
  {
    RunKeepsInv(cal, s, actions);
    var db := Run(cal, s, actions).db;
    if db.job.Some? && db.job.value.status == Ready && db.job.value.revision == db.revision {
      CompletePublishesPlan(cal, db, db.job.value);
    }
  }

  /* ---------- fencing ---------- */

  predicate TokenPhase(pc: Pc) {
    pc.Publish? || pc.Finish? || pc.FailJob? || pc.FailProjection? || pc.Idle?
  }

  predicate KnownIds(db: Db, k: Worker) {
    && (k.token.Some? ==> k.token.value in db.used && TokenPhase(k.pc))
    && (HasGeneration(k.pc) ==> k.generation in db.used)
    && (k.checking ==> Trying(k.pc))
    && (k.pc.Deciding? && k.pc.seen.Some? ==> k.pc.seen.value.generation in db.used)
  }

  /** Identifiers are drawn once, so tokens are never shared; this needs no assumption about builders. */
  ghost predicate TokensDistinct(s: State) {
    && (s.db.job.Some? ==> s.db.job.value.generation in s.db.used)
    && (forall w | w in s.workers :: KnownIds(s.db, s.workers[w]))
    && (forall v, w | v in s.workers && w in s.workers && v != w ::
          s.workers[v].token.Some? ==> s.workers[v].token != s.workers[w].token)
  }

  predicate DrawsIds(s: State, t: State, w: nat)
    requires w in s.workers
  {
    && w in t.workers && t.workers.Keys == s.workers.Keys
    && (forall v | v in s.workers && v != w :: t.workers[v] == s.workers[v])
    && s.db.used <= t.db.used && KnownIds(t.db, t.workers[w])
    && (t.db.job.Some? ==> t.db.job.value.generation in t.db.used)
    && (t.workers[w].token == s.workers[w].token
        || (t.workers[w].token.Some? && t.workers[w].token.value !in s.db.used))
  }

  lemma MoveDrawsIds(s: State, w: nat, pc: Pc, checking: bool)
    requires w in s.workers && KnownIds(s.db, s.workers[w]) && !s.workers[w].checking
    requires s.db.job.Some? ==> s.db.job.value.generation in s.db.used
    requires InBuildPhase(s.workers[w].pc) && InBuildPhase(pc)
    ensures DrawsIds(s, s, w) && DrawsIds(s, Put(s, w, s.workers[w].(pc := pc, checking := checking)), w)
  {
  }

  lemma ReaderDrawsIds(s: State, w: nat, inp: Input)
    requires w in s.workers && KnownIds(s.db, s.workers[w]) && !s.workers[w].checking
    requires s.db.job.Some? ==> s.db.job.value.generation in s.db.used
    requires s.workers[w].pc.BuildRead? || s.workers[w].pc.SnapRead? || s.workers[w].pc.StageRead?
    ensures DrawsIds(s, ReadStep(s, w, inp, BuildWrite(inp.neurons), SnapClear), w)
    ensures DrawsIds(s, ReadStep(s, w, inp, SnapWrite(inp.neurons), StageClear), w)
    ensures DrawsIds(s, StageReadStep(s, w, inp), w)
  {
    MoveDrawsIds(s, w, BuildWrite(inp.neurons), false);
    MoveDrawsIds(s, w, SnapClear, true);
    MoveDrawsIds(s, w, SnapWrite(inp.neurons), false);
    MoveDrawsIds(s, w, StageClear, true);
    MoveDrawsIds(s, w, StageWrite(inp.buckets), false);
    MoveDrawsIds(s, w, MarkReady, true);
    var k := s.workers[w];
    assert !k.checking && k.(checking := false) == k;
  }

  lemma WriterDrawsIds(cal: Calendar, s: State, w: nat, page: set<Neuron>)
    requires w in s.workers && KnownIds(s.db, s.workers[w]) && !s.workers[w].checking
    requires s.db.job.Some? ==> s.db.job.value.generation in s.db.used
    requires InBuildPhase(s.workers[w].pc)
    ensures DrawsIds(s, BuildStep(cal, s, w, page), w)
    ensures DrawsIds(s, SnapStep(s, w, page), w)
  {
  }

  lemma StagerDrawsIds(s: State, w: nat, page: seq<Bucket>)
    requires w in s.workers && KnownIds(s.db, s.workers[w]) && !s.workers[w].checking
    requires s.db.job.Some? ==> s.db.job.value.generation in s.db.used
    requires InBuildPhase(s.workers[w].pc)
    ensures DrawsIds(s, StageStep(s, w, page), w)
  {
  }

  lemma StarterDrawsIds(cal: Calendar, s: State, w: nat, inp: Input)
    requires w in s.workers && KnownIds(s.db, s.workers[w]) && !s.workers[w].checking
    requires s.db.job.Some? ==> s.db.job.value.generation in s.db.used
    requires var pc := s.workers[w].pc; pc.Idle? || pc.Deciding? || pc.Replacing? || pc.Creating? || pc.Claim?
    ensures DrawsIds(s, WorkerStep(cal, s, w, inp), w)
  {
  }

  lemma FinisherDrawsIds(cal: Calendar, s: State, w: nat, inp: Input)
    requires w in s.workers && KnownIds(s.db, s.workers[w]) && !s.workers[w].checking
    requires s.db.job.Some? ==> s.db.job.value.generation in s.db.used
    requires var pc := s.workers[w].pc; pc.MarkReady? || pc.Publish? || pc.Finish? || pc.FailJob? || pc.FailProjection?
    ensures DrawsIds(s, WorkerStep(cal, s, w, inp), w)
  {
  }

  lemma ClearerDrawsIds(cal: Calendar, s: State, w: nat, inp: Input)
    requires w in s.workers && KnownIds(s.db, s.workers[w]) && !s.workers[w].checking
    requires s.db.job.Some? ==> s.db.job.value.generation in s.db.used
    requires s.workers[w].pc.SnapClear? || s.workers[w].pc.StageClear?
    ensures DrawsIds(s, WorkerStep(cal, s, w, inp), w)
  {
  }

  lemma AssertionDrawsIds(cal: Calendar, s: State, w: nat, inp: Input)
    requires w in s.workers && KnownIds(s.db, s.workers[w]) && s.workers[w].checking
    requires s.db.job.Some? ==> s.db.job.value.generation in s.db.used
    ensures DrawsIds(s, WorkerStep(cal, s, w, inp), w)
  {
  }

  lemma WorkerDrawsIds(cal: Calendar, s: State, w: nat, inp: Input)
    requires w in s.workers && KnownIds(s.db, s.workers[w])
    requires s.db.job.Some? ==> s.db.job.value.generation in s.db.used
    ensures DrawsIds(s, WorkerStep(cal, s, w, inp), w)
  {
    var k := s.workers[w];
    if k.checking {
      AssertionDrawsIds(cal, s, w, inp);
    } else {
      match k.pc {
        case BuildRead => ReaderDrawsIds(s, w, inp);
        case BuildWrite(page) => WriterDrawsIds(cal, s, w, page);
        case SnapClear => ClearerDrawsIds(cal, s, w, inp);
        case SnapRead => ReaderDrawsIds(s, w, inp);
        case SnapWrite(page) => WriterDrawsIds(cal, s, w, page);
        case StageClear => ClearerDrawsIds(cal, s, w, inp);
        case StageRead => ReaderDrawsIds(s, w, inp);
        case StageWrite(page) => StagerDrawsIds(s, w, page);
        case MarkReady => FinisherDrawsIds(cal, s, w, inp);
        case Publish => FinisherDrawsIds(cal, s, w, inp);
        case Finish => FinisherDrawsIds(cal, s, w, inp);
        case FailJob => FinisherDrawsIds(cal, s, w, inp);
        case FailProjection => FinisherDrawsIds(cal, s, w, inp);
        case _ => StarterDrawsIds(cal, s, w, inp);
      }
    }
  }

  lemma StepKeepsTokens(cal: Calendar, s: State, a: Action)
    requires TokensDistinct(s)
    ensures TokensDistinct(Next(cal, s, a))
  {
    if a.Advance? && a.worker in s.workers {
      WorkerDrawsIds(cal, s, a.worker, a.input);
    }
  }

  lemma {:induction false} TokensStayDistinct(cal: Calendar, s: State, actions: seq<Action>)
    requires TokensDistinct(s)
    ensures TokensDistinct(Run(cal, s, actions))
    decreases |actions|
  {
    if actions != [] {
      StepKeepsTokens(cal, s, actions[0]);
      TokensStayDistinct(cal, Next(cal, s, actions[0]), actions[1..]);
    }
  }

  /** In any reachable state at most one worker passes the guard of the publish and finish transactions. */
  lemma AtMostOneOwner(cal: Calendar, s: State, actions: seq<Action>, v: nat, w: nat)
    requires Init(s)
    ensures var t := Run(cal, s, actions);
            v in t.workers && w in t.workers && Owns(t.db, t.workers[v]) && Owns(t.db, t.workers[w]) ==> v == w
  {
    TokensStayDistinct(cal, s, actions);
  }

  /** A worker past its decision whose generation was replaced, or whose claim was taken over. */
  predicate Fenced(db: Db, k: Worker) {
    HasGeneration(k.pc) && (!Holds(db, k) || (k.token.Some? && db.job.value.token != k.token))
  }

  /** In any reachable state a fenced worker leaves the live tables, the job and the neurons alone, and it
      changes the projection status exactly when its next statement is the separate 'failed' mark: that mark
      runs outside the transaction of the guarded job update and is not fenced itself. */
  lemma FencedWorkerIsInert(cal: Calendar, s0: State, actions: seq<Action>, w: nat, inp: Input)
    requires Init(s0)
    requires var s := Run(cal, s0, actions); w in s.workers && Fenced(s.db, s.workers[w])
    ensures var s := Run(cal, s0, actions);
            var k, after := s.workers[w], WorkerStep(cal, s, w, inp).db;
            && after == s.db.(projection := after.projection)
            && after.projection == if k.pc.FailProjection? then Some(Projection(Broken, k.zone, s.db.revision))
                                   else s.db.projection
  {
    TokensStayDistinct(cal, s0, actions);
    var s := Run(cal, s0, actions);
    assert KnownIds(s.db, s.workers[w]);
    if s.workers[w].checking || InBuildPhase(s.workers[w].pc) {
      FencedBuilderIsInert(cal, s, w, inp);
    } else {
      FencedPublisherIsInert(cal, s, w, inp);
    }
  }

  lemma FencedBuilderIsInert(cal: Calendar, s: State, w: nat, inp: Input)
    requires w in s.workers && KnownIds(s.db, s.workers[w]) && Fenced(s.db, s.workers[w])
    requires s.workers[w].checking || InBuildPhase(s.workers[w].pc)
    ensures WorkerStep(cal, s, w, inp).db == s.db
  {
  }

  lemma FencedPublisherIsInert(cal: Calendar, s: State, w: nat, inp: Input)
    requires w in s.workers && KnownIds(s.db, s.workers[w]) && Fenced(s.db, s.workers[w])
    requires !s.workers[w].checking && !InBuildPhase(s.workers[w].pc)
    ensures var k, after := s.workers[w], WorkerStep(cal, s, w, inp).db;
            && after == s.db.(projection := after.projection)
            && after.projection == if k.pc.FailProjection? then Some(Projection(Broken, k.zone, s.db.revision))
                                   else s.db.projection
  {
  }

  /** Being fenced is final: a generation or a claim that was replaced never comes back. */
  lemma {:induction false} FencedForGood(cal: Calendar, s: State, actions: seq<Action>, generation: nat, token: nat)
    requires generation in s.db.used && token in s.db.used
    requires s.db.job.None? || s.db.job.value.generation != generation || s.db.job.value.token != Some(token)
    ensures var db := Run(cal, s, actions).db;
            db.job.None? || db.job.value.generation != generation || db.job.value.token != Some(token)
    ensures var db := Run(cal, s, actions).db;
            (s.db.job.None? || s.db.job.value.generation != generation) ==>
              (db.job.None? || db.job.value.generation != generation)
    decreases |actions|
  {
    if actions != [] {
      FencedForGood(cal, Next(cal, s, actions[0]), actions[1..], generation, token);
    }
  }
}
