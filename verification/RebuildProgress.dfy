/** Progress of the rebuild: a worker that nobody disturbs and that does not throw publishes a clean projection. */
module RebuildProgress {
  import opened Options
  import opened TimeBuckets
  import opened TimeProjection
  import opened RebuildSafety

  /** The worker's job is there, and the neurons have not changed since it was made. */
  predicate Current(db: Db, k: Worker) {
    Holds(db, k) && k.revision == db.revision && db.job.value.revision == db.revision && db.job.value.zone == k.zone
  }

  /** Where a worker stands that has met no failure. */
  predicate OnTrack(db: Db, k: Worker) {
    if k.pc.Deciding? then !k.checking && k.pc.seen == db.job && k.token.None?
    else if k.pc.Replacing? then !k.checking && k.token.None?
    else if k.pc.Creating? then !k.checking && k.pc.observed == db.revision && k.token.None?
    else if InBuildPhase(k.pc) then Current(db, k) && db.job.value.status == Building && k.token.None? && (k.checking ==> Checks(k.pc))
    else if k.pc.Claim? then Current(db, k) && db.job.value.status == Ready && k.token.None?
    else (k.pc.Publish? || (k.pc.Finish? && !k.checking)) && Current(db, k) && Owns(db, k)
  }

  /** The statements that an assertion of the source revision can precede. */
  predicate Checks(pc: Pc) {
    pc.BuildRead? || pc.SnapClear? || pc.SnapRead? || pc.StageClear? || pc.MarkReady?
  }

  /** What the worker must be given: fresh ids, pages of at least one row, and a claim to take only once the last
      worker's lease has run out. */
  ghost predicate Honest(db: Db, k: Worker, inp: Input) {
    k.checking ||
    match k.pc
    case Creating(_) => inp.id !in db.used
    case BuildRead => inp.limit > 0 && IsPage(db.neurons, k.cursor, inp.limit, inp.neurons)
    case SnapRead => inp.limit > 0 && IsPage(db.neurons, k.cursor, inp.limit, inp.neurons)
    case StageRead => inp.limit > 0 && IsBucketPage(StagedBuckets(db, k), k.bucketCursor, inp.limit, inp.buckets)
    case Claim => inp.id !in db.used && (db.job.Some? ==> db.job.value.token.None? || db.job.value.leaseUntil < inp.now)
    case _ => true
  }

  function StagedBuckets(db: Db, k: Worker): set<Bucket> {
    if Holds(db, k) then db.job.value.staged.buckets else {}
  }

  ghost predicate Done(cal: Calendar, db: Db, k: Worker) {
    k.pc.Idle? && !k.checking && db.projection == Some(Projection(Clean, k.zone, db.revision)) && db.live == Plan(cal, db.neurons, k.zone)
  }

  /** The worker on its own, as far as what it does is concerned. */
  function Solo(s: State, w: nat): State
    requires w in s.workers
  {
    State(s.db, map[w := s.workers[w]])
  }

  ghost predicate Going(cal: Calendar, s: State, w: nat) {
    w in s.workers && DbInv(cal, s.db) && WorkerInv(cal, s.db, s.workers[w]) && OnTrack(s.db, s.workers[w])
  }

  /* ---------- how much is left to do ---------- */

  function PlannedBuckets(cal: Calendar, db: Db, zone: Zone): nat {
    |BucketsIn(PlanEntries(cal, db.neurons, zone))|
  }

  function StageLeft(cal: Calendar, db: Db, zone: Zone): nat {
    11 + 2 * PlannedBuckets(cal, db, zone)
  }

  function SnapLeft(cal: Calendar, db: Db, zone: Zone): nat {
    StageLeft(cal, db, zone) + 3 * |db.neurons| + 4
  }

  function BuildLeft(cal: Calendar, db: Db, zone: Zone): nat {
    SnapLeft(cal, db, zone) + 3 * |db.neurons| + 2
  }

  function Left(cal: Calendar, db: Db, k: Worker): nat {
    (if k.checking then 1 else 0) +
    match k.pc
    case Deciding(_) => BuildLeft(cal, db, k.zone) + 2
    case Replacing => BuildLeft(cal, db, k.zone) + 1
    case Creating(_) => BuildLeft(cal, db, k.zone)
    case BuildRead => SnapLeft(cal, db, k.zone) + 3 * |After(db.neurons, k.cursor)|
    case BuildWrite(_) => SnapLeft(cal, db, k.zone) + 3 * |After(db.neurons, k.cursor)| - 1
    case SnapClear => StageLeft(cal, db, k.zone) + 3 * |db.neurons| + 2
    case SnapRead => StageLeft(cal, db, k.zone) + 3 * |After(db.neurons, k.cursor)|
    case SnapWrite(_) => StageLeft(cal, db, k.zone) + 3 * |After(db.neurons, k.cursor)| - 1
    case StageClear => StageLeft(cal, db, k.zone) - 2
    case StageRead => 8 + 2 * |AfterBucket(StagedBuckets(db, k), k.bucketCursor)|
    case StageWrite(_) => 7 + 2 * |AfterBucket(StagedBuckets(db, k), k.bucketCursor)|
    case MarkReady => 6
    case Claim => 4
    case Publish => 2
    case Finish => 1
    case _ => 0
  }

  /** A page leaves less after it. */
  lemma PageShrinks(ns: set<Neuron>, cursor: Option<Neuron>, limit: nat, page: set<Neuron>)
    requires IsPage(ns, cursor, limit, page) && page != {}
    ensures |After(ns, Some(LastOf(page)))| < |After(ns, cursor)|
  {
    PageAdvances(ns, cursor, limit, page);
    assert After(ns, Some(LastOf(page))) == After(ns, cursor) - page;
    assert page * After(ns, cursor) == page;
  }

  lemma BucketPageShrinks(bs: set<Bucket>, cursor: Option<Bucket>, limit: nat, page: seq<Bucket>)
    requires IsBucketPage(bs, cursor, limit, page) && page != []
    ensures |AfterBucket(bs, Some(page[|page| - 1]))| < |AfterBucket(bs, cursor)|
  {
    BucketPageAdvances(bs, cursor, limit, page);
    var shown := set b | b in page;
    assert AfterBucket(bs, Some(page[|page| - 1])) == AfterBucket(bs, cursor) - shown;
    assert page[0] in shown && page[0] in AfterBucket(bs, cursor);
    Smaller(AfterBucket(bs, cursor) - shown, AfterBucket(bs, cursor));
  }

  lemma Smaller<T>(a: set<T>, b: set<T>)
    requires a < b
    ensures |a| < |b|
  {
    assert b == a + (b - a) && b - a != {};
  }

  /* ---------- one honest statement ---------- */

  ghost predicate Advances(cal: Calendar, s: State, t: State, w: nat) {
    w in s.workers && w in t.workers && t.workers[w].zone == s.workers[w].zone
    && t.db.neurons == s.db.neurons && t.db.revision == s.db.revision
    && Left(cal, t.db, t.workers[w]) < Left(cal, s.db, s.workers[w])
    && (OnTrack(t.db, t.workers[w]) || (t.workers[w].pc.Idle? && !t.workers[w].checking && t.db.projection == Some(Projection(Clean, s.workers[w].zone, s.db.revision))))
  }

  lemma CheckAdvances(cal: Calendar, s: State, w: nat, inp: Input)
    requires Going(cal, s, w) && s.workers[w].checking
    ensures Advances(cal, s, WorkerStep(cal, s, w, inp), w)
  {
  }

  lemma DecideAdvances(cal: Calendar, s: State, w: nat, inp: Input)
    requires Going(cal, s, w) && !s.workers[w].checking && (s.workers[w].pc.Deciding? || s.workers[w].pc.Replacing?)
    ensures Advances(cal, s, WorkerStep(cal, s, w, inp), w)
  {
    var next := WorkerStep(cal, s, w, inp).workers[w];
    if next.pc.BuildRead? {
      assert After(s.db.neurons, next.cursor) <= s.db.neurons;
      NoLarger(After(s.db.neurons, next.cursor), s.db.neurons);
    }
  }

  lemma NoLarger<T>(a: set<T>, b: set<T>)
    requires a <= b
    ensures |a| <= |b|
  {
    assert b == a + (b - a);
  }

  lemma CreateAdvances(cal: Calendar, s: State, w: nat, inp: Input)
    requires Going(cal, s, w) && !s.workers[w].checking && s.workers[w].pc.Creating? && Honest(s.db, s.workers[w], inp)
    ensures Advances(cal, s, WorkerStep(cal, s, w, inp), w)
  {
    assert After(s.db.neurons, None) == s.db.neurons;
  }

  lemma ReadAdvances(cal: Calendar, s: State, w: nat, inp: Input)
    requires Going(cal, s, w) && !s.workers[w].checking && Honest(s.db, s.workers[w], inp)
    requires s.workers[w].pc.BuildRead? || s.workers[w].pc.SnapRead?
    ensures Advances(cal, s, WorkerStep(cal, s, w, inp), w)
  {
    var k := s.workers[w];
    if inp.neurons != {} {
      var n :| n in inp.neurons;
      assert n in After(s.db.neurons, k.cursor);
    }
  }

  lemma BuildAdvances(cal: Calendar, s: State, w: nat, inp: Input)
    requires Going(cal, s, w) && !s.workers[w].checking && s.workers[w].pc.BuildWrite?
    ensures Advances(cal, s, WorkerStep(cal, s, w, inp), w)
  {
    var k, page := s.workers[w], s.workers[w].pc.neurons;
    assert WorkerInv(cal, s.db, k) && PageOf(s.db, k.cursor, page);
    var limit: nat :| IsPage(s.db.neurons, k.cursor, limit, page);
    PageShrinks(s.db.neurons, k.cursor, limit, page);
  }

  lemma SnapClearAdvances(cal: Calendar, s: State, w: nat, inp: Input)
    requires Going(cal, s, w) && !s.workers[w].checking && s.workers[w].pc.SnapClear?
    ensures Advances(cal, s, WorkerStep(cal, s, w, inp), w)
  {
    assert After(s.db.neurons, None) == s.db.neurons;
  }

  /** The snapshot holds no neuron of the page yet. */
  lemma PageIsNew(db: Db, cursor: Option<Neuron>, limit: nat, page: set<Neuron>)
    requires UniqueIds(db.neurons) && IsPage(db.neurons, cursor, limit, page)
    ensures !exists n :: n in page && n.id in Ids(UpTo(db.neurons, cursor))
  {
    forall n | n in page ensures n.id !in Ids(UpTo(db.neurons, cursor)) {
      assert n in After(db.neurons, cursor) && n in db.neurons;
    }
  }

  lemma SnapAdvances(cal: Calendar, s: State, w: nat, inp: Input)
    requires Going(cal, s, w) && !s.workers[w].checking && s.workers[w].pc.SnapWrite?
    ensures Advances(cal, s, WorkerStep(cal, s, w, inp), w)
  {
    var k, page := s.workers[w], s.workers[w].pc.neurons;
    assert WorkerInv(cal, s.db, k) && PageOf(s.db, k.cursor, page);
    var limit: nat :| IsPage(s.db.neurons, k.cursor, limit, page);
    PageShrinks(s.db.neurons, k.cursor, limit, page);
    PageIsNew(s.db, k.cursor, limit, page);
  }

  lemma StageClearAdvances(cal: Calendar, s: State, w: nat, inp: Input)
    requires Going(cal, s, w) && !s.workers[w].checking && s.workers[w].pc.StageClear?
    ensures Advances(cal, s, WorkerStep(cal, s, w, inp), w)
  {
    var bs := s.db.job.value.staged.buckets;
    assert WorkerInv(cal, s.db, s.workers[w]) && EntriesComplete(cal, s.db, s.db.job.value);
    assert AfterBucket(bs, None) == bs;
  }

  lemma StageReadAdvances(cal: Calendar, s: State, w: nat, inp: Input)
    requires Going(cal, s, w) && !s.workers[w].checking && s.workers[w].pc.StageRead? && Honest(s.db, s.workers[w], inp)
    ensures Advances(cal, s, WorkerStep(cal, s, w, inp), w)
  {
  }

  lemma StageAdvances(cal: Calendar, s: State, w: nat, inp: Input)
    requires Going(cal, s, w) && !s.workers[w].checking && s.workers[w].pc.StageWrite?
    ensures Advances(cal, s, WorkerStep(cal, s, w, inp), w)
  {
    var k, page := s.workers[w], s.workers[w].pc.buckets;
    var bs := s.db.job.value.staged.buckets;
    assert WorkerInv(cal, s.db, k);
    var limit: nat :| IsBucketPage(bs, k.bucketCursor, limit, page);
    BucketPageShrinks(bs, k.bucketCursor, limit, page);
  }

  lemma LastStepsAdvance(cal: Calendar, s: State, w: nat, inp: Input)
    requires Going(cal, s, w) && !s.workers[w].checking && Honest(s.db, s.workers[w], inp)
    requires var pc := s.workers[w].pc; pc.MarkReady? || pc.Claim? || pc.Publish? || pc.Finish?
    ensures Advances(cal, s, WorkerStep(cal, s, w, inp), w)
  {
  }

  lemma StepAdvances(cal: Calendar, s: State, w: nat, inp: Input)
    requires Going(cal, s, w) && Honest(s.db, s.workers[w], inp)
    ensures Advances(cal, s, WorkerStep(cal, s, w, inp), w)
  {
    var k := s.workers[w];
    if k.checking {
      CheckAdvances(cal, s, w, inp);
    } else {
      match k.pc {
        case Deciding(_) => DecideAdvances(cal, s, w, inp);
        case Replacing => DecideAdvances(cal, s, w, inp);
        case Creating(_) => CreateAdvances(cal, s, w, inp);
        case BuildRead => ReadAdvances(cal, s, w, inp);
        case BuildWrite(_) => BuildAdvances(cal, s, w, inp);
        case SnapClear => SnapClearAdvances(cal, s, w, inp);
        case SnapRead => ReadAdvances(cal, s, w, inp);
        case SnapWrite(_) => SnapAdvances(cal, s, w, inp);
        case StageClear => StageClearAdvances(cal, s, w, inp);
        case StageRead => StageReadAdvances(cal, s, w, inp);
        case StageWrite(_) => StageAdvances(cal, s, w, inp);
        case _ => LastStepsAdvance(cal, s, w, inp);
      }
    }
  }

  /* ---------- the invariant along the way ---------- */

  /** `t` and `u` come from `s` and from the worker on its own by the same change. */
  ghost predicate SameEffect(s: State, t: State, u: State, w: nat)
    requires w in s.workers
  {
    w in t.workers && w in u.workers && t.db == u.db && t.workers[w] == u.workers[w]
    && t.workers == s.workers[w := t.workers[w]] && u.workers == map[w := u.workers[w]]
  }

  lemma SoloReads(s: State, w: nat, inp: Input, write: Pc, done: Pc)
    requires w in s.workers
    ensures SameEffect(s, ReadStep(s, w, inp, write, done), ReadStep(Solo(s, w), w, inp, write, done), w)
    ensures SameEffect(s, StageReadStep(s, w, inp), StageReadStep(Solo(s, w), w, inp), w)
  {
  }

  lemma SoloWrites(cal: Calendar, s: State, w: nat, page: set<Neuron>)
    requires w in s.workers
    ensures SameEffect(s, BuildStep(cal, s, w, page), BuildStep(cal, Solo(s, w), w, page), w)
    ensures SameEffect(s, SnapStep(s, w, page), SnapStep(Solo(s, w), w, page), w)
  {
  }

  lemma SoloStages(s: State, w: nat, page: seq<Bucket>)
    requires w in s.workers
    ensures SameEffect(s, StageStep(s, w, page), StageStep(Solo(s, w), w, page), w)
  {
  }

  lemma SoloStarts(s: State, w: nat, observed: nat, inp: Input)
    requires w in s.workers
    ensures SameEffect(s, CreateStep(s, w, observed, inp.id), CreateStep(Solo(s, w), w, observed, inp.id), w)
    ensures SameEffect(s, ClaimStep(s, w, inp), ClaimStep(Solo(s, w), w, inp), w)
  {
  }

  lemma SoloOthers(cal: Calendar, s: State, w: nat, inp: Input)
    requires w in s.workers
    requires var k := s.workers[w]; k.checking || k.pc.Idle? || k.pc.Deciding? || k.pc.Replacing? || k.pc.SnapClear? || k.pc.StageClear?
    ensures SameEffect(s, WorkerStep(cal, s, w, inp), WorkerStep(cal, Solo(s, w), w, inp), w)
  {
  }

  lemma SoloEnds(cal: Calendar, s: State, w: nat, inp: Input)
    requires w in s.workers && !s.workers[w].checking
    requires var pc := s.workers[w].pc; pc.MarkReady? || pc.Publish? || pc.Finish? || pc.FailJob? || pc.FailProjection?
    ensures SameEffect(s, WorkerStep(cal, s, w, inp), WorkerStep(cal, Solo(s, w), w, inp), w)
  {
  }

  /** What a worker does depends on no other worker. */
  lemma SoloStep(cal: Calendar, s: State, w: nat, inp: Input)
    requires w in s.workers
    ensures SameEffect(s, WorkerStep(cal, s, w, inp), WorkerStep(cal, Solo(s, w), w, inp), w)
  {
    var k := s.workers[w];
    if k.checking {
      SoloOthers(cal, s, w, inp);
    } else {
      match k.pc {
        case Creating(observed) => SoloStarts(s, w, observed, inp);
        case BuildRead => SoloReads(s, w, inp, BuildWrite(inp.neurons), SnapClear);
        case BuildWrite(page) => SoloWrites(cal, s, w, page);
        case SnapRead => SoloReads(s, w, inp, SnapWrite(inp.neurons), StageClear);
        case SnapWrite(page) => SoloWrites(cal, s, w, page);
        case StageRead => SoloReads(s, w, inp, Idle, Idle);
        case StageWrite(page) => SoloStages(s, w, page);
        case Claim => SoloStarts(s, w, 0, inp);
        case Idle => SoloOthers(cal, s, w, inp);
        case Deciding(_) => SoloOthers(cal, s, w, inp);
        case Replacing => SoloOthers(cal, s, w, inp);
        case SnapClear => SoloOthers(cal, s, w, inp);
        case StageClear => SoloOthers(cal, s, w, inp);
        case _ => SoloEnds(cal, s, w, inp);
      }
    }
  }

  lemma OnTrackIsExclusive(s: State, w: nat)
    requires w in s.workers && (OnTrack(s.db, s.workers[w]) || s.workers[w].pc.Idle?)
    ensures ExclusiveStaging(Solo(s, w))
  {
    forall v | Restaging(Solo(s, w), v)
      ensures v == w && s.db.job.value.status != Ready
    {
    }
  }

  /** An honest statement keeps the worker on track, with less to do, or finishes the rebuild. */
  lemma HonestStepGoesOn(cal: Calendar, s: State, w: nat, inp: Input)
    requires Going(cal, s, w) && Honest(s.db, s.workers[w], inp)
    ensures var t := Next(cal, s, Advance(w, inp));
            && Advances(cal, s, t, w) && t.workers == s.workers[w := t.workers[w]]
            && (Going(cal, t, w) || Done(cal, t.db, t.workers[w]))
  {
    var t := Next(cal, s, Advance(w, inp));
    StepAdvances(cal, s, w, inp);
    SoloStep(cal, s, w, inp);
    OnTrackIsExclusive(s, w);
    OnTrackIsExclusive(t, w);
    var u := WorkerStep(cal, Solo(s, w), w, inp);
    assert u == Solo(t, w);
    StepKeepsInv(cal, Solo(s, w), Advance(w, inp));
    assert DbInv(cal, t.db) && WorkerInv(cal, t.db, u.workers[w]);
  }

  /* ---------- whole runs ---------- */

  function Turns(w: nat, inputs: seq<Input>): seq<Action> {
    seq(|inputs|, i requires 0 <= i < |inputs| => Advance(w, inputs[i]))
  }

  /** The worker is given what it must be given at every one of its statements. */
  ghost predicate HonestRun(cal: Calendar, s: State, w: nat, inputs: seq<Input>)
    decreases |inputs|
  {
    inputs != [] ==>
      w in s.workers && Honest(s.db, s.workers[w], inputs[0]) && HonestRun(cal, Next(cal, s, Advance(w, inputs[0])), w, inputs[1..])
  }

  /** The rebuild is finished, and nothing but the worker and the tables it owns has moved. */
  ghost predicate Finished(cal: Calendar, s: State, t: State, w: nat, zone: Zone) {
    && t.db.neurons == s.db.neurons && t.db.revision == s.db.revision
    && t.db.projection == Some(Projection(Clean, zone, s.db.revision))
    && t.db.live == Plan(cal, s.db.neurons, zone)
    && w in t.workers && t.workers[w].pc.Idle? && t.workers == s.workers[w := t.workers[w]]
  }

  lemma TurnsStep(w: nat, inputs: seq<Input>)
    requires inputs != []
    ensures Turns(w, inputs) == [Advance(w, inputs[0])] + Turns(w, inputs[1..])
  {
  }

  lemma {:induction false} IdleStays(cal: Calendar, s: State, w: nat, inputs: seq<Input>)
    requires w in s.workers && s.workers[w].pc.Idle? && !s.workers[w].checking
    ensures Run(cal, s, Turns(w, inputs)) == s
    decreases |inputs|
  {
    if inputs == [] {
    } else {
      TurnsStep(w, inputs);
      assert Turns(w, inputs)[1..] == Turns(w, inputs[1..]);
      assert Next(cal, s, Advance(w, inputs[0])) == s;
      IdleStays(cal, s, w, inputs[1..]);
    }
  }

  /** A worker on track finishes within as many of its own statements as it has left, whatever the page sizes. */
  lemma {:induction false} OnTrackFinishes(cal: Calendar, s: State, w: nat, inputs: seq<Input>)
    requires Going(cal, s, w) && HonestRun(cal, s, w, inputs) && |inputs| >= Left(cal, s.db, s.workers[w])
    ensures Finished(cal, s, Run(cal, s, Turns(w, inputs)), w, s.workers[w].zone)
    decreases |inputs|
  {
    assert Left(cal, s.db, s.workers[w]) > 0;
    var t := Next(cal, s, Advance(w, inputs[0]));
    HonestStepGoesOn(cal, s, w, inputs[0]);
    TurnsStep(w, inputs);
    assert Turns(w, inputs)[1..] == Turns(w, inputs[1..]);
    if Going(cal, t, w) {
      OnTrackFinishes(cal, t, w, inputs[1..]);
    } else {
      IdleStays(cal, t, w, inputs[1..]);
    }
  }

  /* ---------- there is always something honest to give ---------- */

  lemma {:induction false} LeastBucketExists(bs: set<Bucket>, zone: Zone) returns (least: Bucket)
    requires bs != {} && InZone(bs, zone)
    ensures least in bs && forall b | b in bs :: b == least || BucketBefore(least, b)
  {
    var b :| b in bs;
    if bs == {b} {
      least := b;
    } else {
      var rest := LeastBucketExists(bs - {b}, zone);
      assert forall c | c in bs :: c == b || c in bs - {b};
      least := if BucketBefore(b, rest) then b else rest;
    }
  }

  lemma FirstBucketPage(bs: set<Bucket>, cursor: Option<Bucket>, zone: Zone) returns (page: seq<Bucket>)
    requires InZone(bs, zone)
    ensures IsBucketPage(bs, cursor, 1, page)
  {
    if AfterBucket(bs, cursor) == {} {
      page := [];
    } else {
      var least := LeastBucketExists(AfterBucket(bs, cursor), zone);
      page := [least];
    }
  }

  lemma StagedInZone(cal: Calendar, db: Db, k: Worker)
    requires DbInv(cal, db) && WorkerInv(cal, db, k) && OnTrack(db, k) && k.pc.StageRead?
    ensures InZone(StagedBuckets(db, k), k.zone)
  {
    StagedZone(cal, db, db.job.value);
  }

  lemma HonestInputExists(cal: Calendar, s: State, w: nat) returns (inp: Input)
    requires Going(cal, s, w)
    ensures Honest(s.db, s.workers[w], inp)
  {
    var k, db := s.workers[w], s.db;
    var id := FreshId(db.used);
    var page := After(db.neurons, k.cursor);
    var rows: seq<Bucket> := [];
    if k.pc.StageRead? && !k.checking {
      StagedInZone(cal, db, k);
      rows := FirstBucketPage(StagedBuckets(db, k), k.bucketCursor, k.zone);
    }
    var now := if db.job.Some? then db.job.value.leaseUntil + 1 else 0;
    inp := Input(id, now, if k.pc.StageRead? then 1 else |page| + 1, page, rows);
  }

  lemma {:induction false} FreshId(used: set<nat>) returns (id: nat)
    ensures id !in used
  {
    if used == {} {
      id := 0;
    } else {
      id := AboveAll(used);
    }
  }

  lemma {:induction false} AboveAll(used: set<nat>) returns (id: nat)
    ensures forall n | n in used :: n < id
  {
    if used == {} {
      id := 0;
    } else {
      var n :| n in used;
      var above := AboveAll(used - {n});
      id := if n < above then above else n + 1;
      assert forall m | m in used :: m == n || m in used - {n};
    }
  }

  /** So the worker can finish, in no more statements than it has left. */
  lemma {:induction false} OnTrackCanFinish(cal: Calendar, s: State, w: nat) returns (inputs: seq<Input>)
    requires Going(cal, s, w)
    ensures HonestRun(cal, s, w, inputs) && |inputs| <= Left(cal, s.db, s.workers[w])
    ensures Finished(cal, s, Run(cal, s, Turns(w, inputs)), w, s.workers[w].zone)
    decreases Left(cal, s.db, s.workers[w])
  {
    var inp := HonestInputExists(cal, s, w);
    HonestStepGoesOn(cal, s, w, inp);
    var t := Next(cal, s, Advance(w, inp));
    var more: seq<Input> := [];
    if Going(cal, t, w) {
      more := OnTrackCanFinish(cal, t, w);
    } else {
      IdleStays(cal, t, w, []);
    }
    inputs := [inp] + more;
    assert inputs[1..] == more;
    TurnsStep(w, inputs);
    assert Turns(w, inputs)[1..] == Turns(w, more);
  }

  /* ---------- the result ---------- */

  lemma BeginIsGoing(cal: Calendar, s: State, w: nat, zone: Zone)
    requires DbInv(cal, s.db) && (w in s.workers ==> s.workers[w].pc.Idle?)
    ensures var t := Next(cal, s, Begin(w, zone));
            Going(cal, t, w) && t.db == s.db && t.workers == s.workers[w := t.workers[w]] && t.workers[w].zone == zone
  {
  }

  /** A bound on the statements of one rebuild: a few for each neuron and each bucket of the plan. */
  function Statements(cal: Calendar, db: Db, zone: Zone): nat {
    19 + 6 * |db.neurons| + 2 * PlannedBuckets(cal, db, zone)
  }

  /** From any database that satisfies the invariant, whatever job other workers left in it, ready, half built, failed
      or out of date, a worker that begins, is not disturbed and does not throw publishes a clean projection of the
      neurons at the current revision within a bounded number of its statements, whatever the page sizes.  A claim
      another worker left must have run out when it takes its own. */
  lemma UndisturbedFinishes(cal: Calendar, s: State, w: nat, zone: Zone, inputs: seq<Input>)
    requires DbInv(cal, s.db) && (w in s.workers ==> s.workers[w].pc.Idle?)
    requires HonestRun(cal, Next(cal, s, Begin(w, zone)), w, inputs) && |inputs| >= Statements(cal, s.db, zone)
    ensures Finished(cal, s, Run(cal, Next(cal, s, Begin(w, zone)), Turns(w, inputs)), w, zone)
  {
    BeginIsGoing(cal, s, w, zone);
    OnTrackFinishes(cal, Next(cal, s, Begin(w, zone)), w, inputs);
  }

  /** And it can always be given what it needs. */
  lemma UndisturbedCanFinish(cal: Calendar, s: State, w: nat, zone: Zone) returns (inputs: seq<Input>)
    requires DbInv(cal, s.db) && (w in s.workers ==> s.workers[w].pc.Idle?)
    ensures HonestRun(cal, Next(cal, s, Begin(w, zone)), w, inputs) && |inputs| <= Statements(cal, s.db, zone)
    ensures Finished(cal, s, Run(cal, Next(cal, s, Begin(w, zone)), Turns(w, inputs)), w, zone)
  {
    BeginIsGoing(cal, s, w, zone);
    inputs := OnTrackCanFinish(cal, Next(cal, s, Begin(w, zone)), w);
  }

  /** From wherever a run has got to, with whatever crashes and takeovers, a clean projection is within reach. */
  lemma RunCanAlwaysFinish(cal: Calendar, s0: State, actions: seq<Action>, w: nat, zone: Zone) returns (inputs: seq<Input>)
    requires Init(s0) && ExclusiveRun(cal, s0, actions)
    requires var s := Run(cal, s0, actions); w in s.workers ==> s.workers[w].pc.Idle?
    ensures var s := Run(cal, s0, actions);
            Finished(cal, s, Run(cal, Next(cal, s, Begin(w, zone)), Turns(w, inputs)), w, zone)
  {
    RunKeepsInv(cal, s0, actions);
    inputs := UndisturbedCanFinish(cal, Run(cal, s0, actions), w, zone);
  }
}
