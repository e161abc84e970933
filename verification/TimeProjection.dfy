/** The resumable rebuild of one project's time tables, as a transition system.

    Every database transaction, and every statement outside one, is one atomic step.  Any number of
    workers may run the rebuild, crash, resume each other's job and race with ingests and with other
    changes to the neurons.  Fresh identifiers, clock readings and the pages a query returns are inputs
    of the steps. */
module TimeProjection {
  import opened Options
  import opened TimeBuckets

  const LEASE := 30_000

  /* ---------- the database ---------- */

  datatype JobStatus = Building | Ready | Failed

  /** The staging rows of a job; they cascade away with the job row they reference. */
  datatype Staged = Staged(entries: set<Entry>, buckets: set<Bucket>, active: set<nat>, links: set<(Bucket, Bucket)>)

  const NothingStaged := Staged({}, {}, {}, {})

  /** `cursor` is the (createdAt, id) pair of the last neuron whose rows are committed. */
  datatype Job = Job(generation: nat, zone: Zone, status: JobStatus, cursor: Option<Neuron>, revision: nat,
                     token: Option<nat>, leaseUntil: int, staged: Staged)

  datatype ProjectionStatus = Dirty | Rebuilding | Clean | Broken

  datatype Projection = Projection(status: ProjectionStatus, zone: Zone, revision: nat)

  /** `used` collects every identifier drawn so far, so that "fresh" has a meaning. */
  datatype Db = Db(neurons: set<Neuron>, revision: nat, projection: Option<Projection>, job: Option<Job>,
                   live: Tables, used: set<nat>)

  /* ---------- the workers ---------- */

  datatype Pc =
    | Idle
    | Deciding(seen: Option<Job>)
    | Replacing
    | Creating(observed: nat)
    | BuildRead
    | BuildWrite(neurons: set<Neuron>)
    | SnapClear
    | SnapRead
    | SnapWrite(neurons: set<Neuron>)
    | StageClear
    | StageRead
    | StageWrite(buckets: seq<Bucket>)
    | MarkReady
    | Claim
    | Publish
    | Finish
    | FailJob
    | FailProjection

  /** `checking` means that the next statement is the source-revision assertion in front of `pc`. */
  datatype Worker = Worker(zone: Zone, pc: Pc, checking: bool, generation: nat, revision: nat,
                           cursor: Option<Neuron>, bucketCursor: Option<Bucket>,
                           previous: map<BucketKind, Bucket>, token: Option<nat>)

  datatype State = State(db: Db, workers: map<nat, Worker>)

  /** What the environment supplies to one statement: a fresh identifier, the clock, a page limit and the page. */
  datatype Input = Input(id: nat, now: int, limit: nat, neurons: set<Neuron>, buckets: seq<Bucket>)

  datatype Action =
    | Ingest(neuron: Neuron, zone: Zone)
    | Mutate(neurons: set<Neuron>, live: Tables)
    | Begin(worker: nat, zone: Zone)
    | Advance(worker: nat, input: Input)
    | Throw(worker: nat)
    | Crash(worker: nat)

  /* ---------- pages ---------- */

  predicate Before(a: Neuron, b: Neuron) {
    a.createdAt < b.createdAt || (a.createdAt == b.createdAt && a.id < b.id)
  }

  function After(ns: set<Neuron>, cursor: Option<Neuron>): set<Neuron> {
    set n | n in ns && (cursor.None? || Before(cursor.value, n))
  }

  function UpTo(ns: set<Neuron>, cursor: Option<Neuron>): set<Neuron> {
    ns - After(ns, cursor)
  }

  /** The first `limit` neurons after the cursor in the order (createdAt, id). */
  ghost predicate IsPage(ns: set<Neuron>, cursor: Option<Neuron>, limit: nat, page: set<Neuron>) {
    && page <= After(ns, cursor)
    && |page| <= limit
    && (|page| < limit ==> page == After(ns, cursor))
    && forall p, q | p in page && q in After(ns, cursor) && q !in page :: Before(p, q)
  }

  lemma {:induction false} LastNeuronExists(page: set<Neuron>) returns (last: Neuron)
    requires page != {}
    ensures last in page && forall n | n in page :: n == last || Before(n, last)
  {
    var n :| n in page;
    if page == {n} {
      last := n;
    } else {
      var rest := LastNeuronExists(page - {n});
      assert forall m | m in page :: m == n || m in page - {n};
      last := if Before(rest, n) then n else rest;
    }
  }

  ghost function LastOf(page: set<Neuron>): (last: Neuron)
    requires page != {}
    ensures last in page && forall n | n in page :: n == last || Before(n, last)
  {
    assert exists n :: n in page && forall m | m in page :: m == n || Before(m, n) by {
      var n := LastNeuronExists(page);
    }
    var n :| n in page && forall m | m in page :: m == n || Before(m, n);
    n
  }

  /** Committing a page moves the done part of the neurons forward by exactly that page. */
  lemma PageAdvances(ns: set<Neuron>, cursor: Option<Neuron>, limit: nat, page: set<Neuron>)
    requires IsPage(ns, cursor, limit, page) && page != {}
    ensures UpTo(ns, Some(LastOf(page))) == UpTo(ns, cursor) + page
    ensures UpTo(ns, cursor) !! page
  {
    var last := LastOf(page);
    forall n | n in ns
      ensures n in After(ns, Some(last)) <==> n in After(ns, cursor) && n !in page
    {
    }
  }

  /** By creation, then by id. */
  predicate Older(a: Neuron, b: Neuron) {
    if a.createdAt == b.createdAt then a.id < b.id else a.createdAt < b.createdAt
  }

  /** A page takes the oldest neurons that are newer than the cursor. */
  lemma PageIsOldest(ns: set<Neuron>, cursor: Option<Neuron>, limit: nat, page: set<Neuron>, p: Neuron, q: Neuron)
    requires IsPage(ns, cursor, limit, page) && p in page && q in ns
    ensures cursor.Some? ==> Older(cursor.value, p)
    ensures q !in page && (cursor.None? || Older(cursor.value, q)) ==> Older(p, q)
  {
    assert forall a, b :: Before(a, b) <==> Older(a, b);
    assert q !in page && (cursor.None? || Before(cursor.value, q)) ==> q in After(ns, cursor);
  }

  function KindRank(k: BucketKind): nat {
    match k case Day => 0 case Month => 1 case Week => 2
  }

  predicate BucketBefore(a: Bucket, b: Bucket) {
    KindRank(a.kind) < KindRank(b.kind) || (a.kind == b.kind && a.start < b.start)
  }

  function AfterBucket(bs: set<Bucket>, cursor: Option<Bucket>): set<Bucket> {
    set b | b in bs && (cursor.None? || BucketBefore(cursor.value, b))
  }

  predicate Ordered(page: seq<Bucket>) {
    forall i, j | 0 <= i < j < |page| :: BucketBefore(page[i], page[j])
  }

  /** The first `limit` buckets after the cursor in the order (type, start). */
  ghost predicate IsBucketPage(bs: set<Bucket>, cursor: Option<Bucket>, limit: nat, page: seq<Bucket>) {
    var rest := AfterBucket(bs, cursor);
    && Ordered(page)
    && |page| <= limit
    && (forall b | b in page :: b in rest)
    && (|page| < limit ==> forall b | b in rest :: b in page)
    && forall b, c | b in page && c in rest && c !in page :: BucketBefore(b, c)
  }

  /** Days go before months and months before weeks, and within a kind the earlier start goes first. */
  lemma PageOrder(page: seq<Bucket>, i: nat, j: nat)
    requires Ordered(page) && i < j < |page|
    ensures page[j].kind.Day? ==> page[i].kind.Day?
    ensures page[i].kind.Week? ==> page[j].kind.Week?
    ensures page[i].kind == page[j].kind ==> page[i].start < page[j].start
  {
    assert BucketBefore(page[i], page[j]);
  }

  /* ---------- staging the links of one page of buckets ---------- */

  function StagedLinks(links: set<(Bucket, Bucket)>, previous: map<BucketKind, Bucket>, page: seq<Bucket>): set<(Bucket, Bucket)>
    decreases |page|
  {
    if page == [] then links
    else
      var b := page[0];
      var more := if b.kind in previous then Both(previous[b.kind], b) else {};
      StagedLinks(links + more, previous[b.kind := b], page[1..])
  }

  function StagedPrevious(previous: map<BucketKind, Bucket>, page: seq<Bucket>): map<BucketKind, Bucket>
    decreases |page|
  {
    if page == [] then previous else StagedPrevious(previous[page[0].kind := page[0]], page[1..])
  }

  /** The body of the staging transaction: a loop that carries the last bucket of each kind across pages. */
  method StageBucketPage(links0: set<(Bucket, Bucket)>, previous0: map<BucketKind, Bucket>, page: seq<Bucket>)
    returns (links: set<(Bucket, Bucket)>, previous: map<BucketKind, Bucket>)
    ensures links == StagedLinks(links0, previous0, page)
    ensures previous == StagedPrevious(previous0, page)
  {
    links, previous := links0, previous0;
    for i := 0 to |page|
      invariant StagedLinks(links, previous, page[i..]) == StagedLinks(links0, previous0, page)
      invariant StagedPrevious(previous, page[i..]) == StagedPrevious(previous0, page)
    {
      var b := page[i];
      assert page[i..][0] == b && page[i..][1..] == page[i + 1..];
      if b.kind in previous {
        links := links + Both(previous[b.kind], b);
      } else {
        assert links + {} == links;
      }
      previous := previous[b.kind := b];
    }
  }

  /** `previous` holds the last processed bucket of each kind. */
  ghost predicate LastPerKind(done: set<Bucket>, previous: map<BucketKind, Bucket>) {
    && (forall k | k in previous :: previous[k] in done && previous[k].kind == k)
    && (forall b | b in done :: b.kind in previous && b.start <= previous[b.kind].start)
  }

  predicate InZone(bs: set<Bucket>, zone: Zone) {
    forall b | b in bs :: b.zone == zone
  }

  lemma StageOneBucket(done: set<Bucket>, previous: map<BucketKind, Bucket>, b: Bucket)
    requires InZone(done, b.zone) && LastPerKind(done, previous)
    requires forall d | d in done && d.kind == b.kind :: d.start < b.start
    ensures Links(done + {b}) == Links(done) + (if b.kind in previous then Both(previous[b.kind], b) else {})
    ensures LastPerKind(done + {b}, previous[b.kind := b])
  {
    var bs := done + {b};
    var p := if b.kind in previous then Some(previous[b.kind]) else None;
    var more := if b.kind in previous then Both(previous[b.kind], b) else {};
    assert IsPrevious(bs, b, p) && IsNext(bs, b, None);
    forall l: (Bucket, Bucket)
      ensures l in Links(bs) <==> l in Links(done) + more
    {
      var (x, y) := l;
      if x == b || y == b {
        PreviousIsUnique(bs, b, p, if x == b then y else x);
        NextIsUnique(bs, b, None, if x == b then y else x);
      } else if x in done && y in done && SameTrack(x, y) {
        if SameTrack(x, b) {
          FollowsAfterInsert(done, bs, b, p, None, x, y);
          FollowsAfterInsert(done, bs, b, p, None, y, x);
        } else {
          assert forall c | c in bs && SameTrack(c, x) :: c in done;
        }
      }
    }
  }

  /** Whatever the page, the staged links stay those of the buckets processed so far. */
  lemma {:induction false} StagePage(done: set<Bucket>, previous: map<BucketKind, Bucket>, page: seq<Bucket>, zone: Zone)
    requires InZone(done + (set b | b in page), zone) && LastPerKind(done, previous) && Ordered(page)
    requires forall d, b | d in done && b in page :: BucketBefore(d, b)
    ensures StagedLinks(Links(done), previous, page) == Links(done + set b | b in page)
    ensures LastPerKind(done + (set b | b in page), StagedPrevious(previous, page))
    decreases |page|
  {
    if page == [] {
      assert done + (set b | b in page) == done;
    } else {
      var b := page[0];
      assert InZone(done, b.zone);
      StageOneBucket(done, previous, b);
      assert (done + {b}) + (set c | c in page[1..]) == done + set c | c in page;
      StagePage(done + {b}, previous[b.kind := b], page[1..], zone);
    }
  }

  lemma BucketPageAdvances(bs: set<Bucket>, cursor: Option<Bucket>, limit: nat, page: seq<Bucket>)
    requires IsBucketPage(bs, cursor, limit, page) && page != []
    ensures bs - AfterBucket(bs, Some(page[|page| - 1])) == (bs - AfterBucket(bs, cursor)) + set b | b in page
    ensures forall d, b | d in bs - AfterBucket(bs, cursor) && b in page && InZone(bs, b.zone) :: BucketBefore(d, b)
  {
    var last := page[|page| - 1];
    assert last in page;
    forall b | b in bs
      ensures b in AfterBucket(bs, Some(last)) <==> b in AfterBucket(bs, cursor) && b !in page
    {
      if b in page {
        var i :| 0 <= i < |page| && page[i] == b;
        assert i == |page| - 1 || BucketBefore(page[i], page[|page| - 1]);
      }
    }
  }

  /* ---------- the steps ---------- */

  predicate UniqueIds(ns: set<Neuron>) {
    forall m, n | m in ns && n in ns && m.id == n.id :: m == n
  }

  /** The job row of the worker's generation still exists. */
  predicate Holds(db: Db, k: Worker) {
    db.job.Some? && db.job.value.generation == k.generation
  }

  /** The guard of every publish statement: this worker's token on a ready job of its generation and revision. */
  predicate Owns(db: Db, k: Worker) {
    && Holds(db, k)
    && db.job.value.status == Ready
    && db.job.value.revision == k.revision
    && k.token.Some?
    && db.job.value.token == k.token
  }

  function Put(s: State, w: nat, k: Worker): State {
    s.(workers := s.workers[w := k])
  }

  function WithJob(db: Db, j: Job): Db {
    db.(job := Some(j))
  }

  /** The live tables as the publish transaction leaves them: everything replaced by the staged rows of
      neurons in the snapshot. */
  function Published(st: Staged): Tables {
    var entries := set e | e in st.entries && e.neuronId in st.active;
    Tables(entries, (set b | b in st.buckets && b in BucketsIn(entries)), st.links)
  }

  ghost function IngestStep(cal: Calendar, db: Db, n: Neuron, zone: Zone): Db {
    var incremental :=
      match db.projection
      case None => db.revision == 0
      case Some(p) => p.status == Clean && p.zone == zone && p.revision == db.revision;
    db.(neurons := db.neurons + {n},
        revision := db.revision + 1,
        live := if incremental then Ingested(cal, db.live, n, zone) else db.live,
        projection := Some(Projection(if incremental then Clean else Dirty, zone, db.revision + 1)))
  }

  function MutateStep(db: Db, ns: set<Neuron>, live: Tables): Db {
    db.(neurons := ns,
        revision := db.revision + 1,
        live := live,
        projection := match db.projection
                      case None => None
                      case Some(p) => Some(Projection(Dirty, p.zone, db.revision + 1)))
  }

  ghost function WorkerStep(cal: Calendar, s: State, w: nat, inp: Input): State
    requires w in s.workers
  {
    var k := s.workers[w];
    var db := s.db;
    if k.checking then
      Put(s, w, k.(checking := false, pc := if db.revision == k.revision then k.pc else FailJob))
    else
      match k.pc
      case Idle => s
      case Deciding(seen) =>
        if seen.None? || seen.value.status == Failed || seen.value.zone != k.zone || seen.value.revision != db.revision then
          Put(s, w, k.(pc := Replacing))
        else
          Put(s, w, k.(pc := if seen.value.status == Building then BuildRead else Claim, checking := true,
                       generation := seen.value.generation, revision := seen.value.revision, cursor := seen.value.cursor))
      case Replacing => Put(s, w, k.(pc := Creating(db.revision)))
      case Creating(observed) => CreateStep(s, w, observed, inp.id)
      case BuildRead => ReadStep(s, w, inp, BuildWrite(inp.neurons), SnapClear)
      case BuildWrite(page) => BuildStep(cal, s, w, page)
      case SnapClear =>
        var next := k.(pc := SnapRead, checking := true, cursor := None);
        if Holds(db, k) then
          Put(s, w, next).(db := WithJob(db, db.job.value.(staged := db.job.value.staged.(active := {}))))
        else Put(s, w, next)
      case SnapRead => ReadStep(s, w, inp, SnapWrite(inp.neurons), StageClear)
      case SnapWrite(page) => SnapStep(s, w, page)
      case StageClear =>
        var next := k.(pc := StageRead, bucketCursor := None, previous := map[]);
        if Holds(db, k) then
          Put(s, w, next).(db := WithJob(db, db.job.value.(staged := db.job.value.staged.(links := {}))))
        else Put(s, w, next)
      case StageRead => StageReadStep(s, w, inp)
      case StageWrite(page) => StageStep(s, w, page)
      case MarkReady =>
        var next := k.(pc := Claim, checking := true);
        if Holds(db, k) && db.job.value.status == Building && db.job.value.revision == k.revision then
          Put(s, w, next).(db := WithJob(db, db.job.value.(status := Ready)))
        else Put(s, w, next)
      case Claim => ClaimStep(s, w, inp)
      case Publish =>
        if Owns(db, k) then
          Put(s, w, k.(pc := Finish)).(
            db := WithJob(db, db.job.value.(leaseUntil := inp.now + LEASE)).(live := Published(db.job.value.staged)))
        else Put(s, w, k.(pc := FailJob))
      case Finish =>
        if db.revision == k.revision && Owns(db, k) then
          Put(s, w, k.(pc := Idle)).(
            db := db.(job := None, projection := Some(Projection(Clean, k.zone, k.revision))))
        else Put(s, w, k.(pc := FailJob))
      case FailJob =>
        if Holds(db, k) && db.job.value.token == k.token then
          Put(s, w, k.(pc := FailProjection)).(db := WithJob(db, db.job.value.(status := Failed)))
        else Put(s, w, k.(pc := Idle))
      case FailProjection =>
        Put(s, w, k.(pc := Idle)).(db := db.(projection := Some(Projection(Broken, k.zone, db.revision))))
  }

  /** One transaction: the old job row and its staging rows go, the new row and the 'building' mark come. */
  function CreateStep(s: State, w: nat, observed: nat, id: nat): State
    requires w in s.workers
  {
    var k := s.workers[w];
    if id in s.db.used then s
    else
      var job := Job(id, k.zone, Building, None, observed, None, 0, NothingStaged);
      State(s.db.(job := Some(job), used := s.db.used + {id},
                  projection := Some(Projection(Rebuilding, k.zone, observed))),
            s.workers[w := k.(pc := BuildRead, checking := true, generation := id, revision := observed, cursor := None)])
  }

  ghost function ReadStep(s: State, w: nat, inp: Input, write: Pc, done: Pc): State
    requires w in s.workers
  {
    var k := s.workers[w];
    if inp.limit == 0 || !IsPage(s.db.neurons, k.cursor, inp.limit, inp.neurons) then s
    else if inp.neurons == {} then Put(s, w, k.(pc := done, checking := true))
    else Put(s, w, k.(pc := write))
  }

  ghost function BuildStep(cal: Calendar, s: State, w: nat, page: set<Neuron>): State
    requires w in s.workers
  {
    var k := s.workers[w];
    if !Holds(s.db, k) || page == {} then Put(s, w, k.(pc := FailJob))
    else
      var j := s.db.job.value;
      var added := PlanEntries(cal, page, k.zone);
      var staged := j.staged.(entries := j.staged.entries + added, buckets := j.staged.buckets + BucketsIn(added));
      var last := LastOf(page);
      var moved := if j.status == Building && j.revision == k.revision then Some(last) else j.cursor;
      Put(s, w, k.(pc := BuildRead, checking := true, cursor := Some(last))).(
        db := WithJob(s.db, j.(staged := staged, cursor := moved)))
  }

  ghost function SnapStep(s: State, w: nat, page: set<Neuron>): State
    requires w in s.workers
  {
    var k := s.workers[w];
    if !Holds(s.db, k) || page == {} || (exists n :: n in page && n.id in s.db.job.value.staged.active) then
      Put(s, w, k.(pc := FailJob))
    else
      var j := s.db.job.value;
      var staged := j.staged.(active := j.staged.active + Ids(page));
      Put(s, w, k.(pc := SnapRead, checking := true, cursor := Some(LastOf(page)))).(
        db := WithJob(s.db, j.(staged := staged)))
  }

  function Ids(ns: set<Neuron>): set<nat> {
    set n | n in ns :: n.id
  }

  ghost function StageReadStep(s: State, w: nat, inp: Input): State
    requires w in s.workers
  {
    var k := s.workers[w];
    var rows := if Holds(s.db, k) then s.db.job.value.staged.buckets else {};
    if inp.limit == 0 || !IsBucketPage(rows, k.bucketCursor, inp.limit, inp.buckets) then s
    else if inp.buckets == [] then Put(s, w, k.(pc := MarkReady, checking := true))
    else Put(s, w, k.(pc := StageWrite(inp.buckets)))
  }

  function StageStep(s: State, w: nat, page: seq<Bucket>): State
    requires w in s.workers
  {
    var k := s.workers[w];
    if !Holds(s.db, k) || page == [] then Put(s, w, k.(pc := FailJob))
    else
      var j := s.db.job.value;
      var staged := j.staged.(links := StagedLinks(j.staged.links, k.previous, page));
      Put(s, w, k.(pc := StageRead, bucketCursor := Some(page[|page| - 1]), previous := StagedPrevious(k.previous, page))).(
        db := WithJob(s.db, j.(staged := staged)))
  }

  function ClaimStep(s: State, w: nat, inp: Input): State
    requires w in s.workers
  {
    var k := s.workers[w];
    if inp.id in s.db.used then s
    else if Holds(s.db, k) && s.db.job.value.status == Ready && s.db.job.value.revision == k.revision
            && (s.db.job.value.token.None? || s.db.job.value.leaseUntil < inp.now) then
      Put(s, w, k.(pc := Publish, checking := true, token := Some(inp.id))).(
        db := WithJob(s.db, s.db.job.value.(token := Some(inp.id), leaseUntil := inp.now + LEASE)).(
          used := s.db.used + {inp.id}))
    else
      Put(s, w, k.(pc := FailJob))
  }

  /** Inside the try block of the rebuild. */
  predicate Trying(pc: Pc) {
    !(pc.Idle? || pc.Deciding? || pc.Replacing? || pc.Creating? || pc.FailJob? || pc.FailProjection?)
  }

  ghost function Next(cal: Calendar, s: State, a: Action): State {
    match a
    case Ingest(n, zone) =>
      if n.id in Ids(s.db.neurons) then s else s.(db := IngestStep(cal, s.db, n, zone))
    case Mutate(ns, live) =>
      if UniqueIds(ns) then s.(db := MutateStep(s.db, ns, live)) else s
    case Begin(w, zone) =>
      if w in s.workers && !s.workers[w].pc.Idle? then s
      else Put(s, w, Worker(zone, Deciding(s.db.job), false, 0, 0, None, None, map[], None))
    case Advance(w, inp) =>
      if w in s.workers then WorkerStep(cal, s, w, inp) else s
    case Throw(w) =>
      if w in s.workers && Trying(s.workers[w].pc) then Put(s, w, s.workers[w].(pc := FailJob, checking := false)) else s
    case Crash(w) =>
      s.(workers := s.workers - {w})
  }

  predicate Init(s: State) {
    s.db == Db({}, 0, None, None, NoTables, {}) && s.workers == map[]
  }

  ghost function Run(cal: Calendar, s: State, actions: seq<Action>): State
    decreases |actions|
  {
    if actions == [] then s else Run(cal, Next(cal, s, actions[0]), actions[1..])
  }

  /* ---------- what the rebuild relies on ---------- */

  predicate InBuildPhase(pc: Pc) {
    || pc.BuildRead? || pc.BuildWrite? || pc.SnapClear? || pc.SnapRead? || pc.SnapWrite?
    || pc.StageClear? || pc.StageRead? || pc.StageWrite? || pc.MarkReady?
  }

  /** From the deletion of the old snapshot up to the 'ready' mark. */
  predicate Restages(pc: Pc) {
    pc.SnapRead? || pc.SnapWrite? || pc.StageClear? || pc.StageRead? || pc.StageWrite? || pc.MarkReady?
  }

  ghost predicate Restaging(s: State, w: nat) {
    w in s.workers && Restages(s.workers[w].pc) && Holds(s.db, s.workers[w]) && s.db.job.value.revision == s.db.revision
  }

  /** While a generation is live and current, a worker that has emptied its snapshot is the only one to have done so
      until it has marked the job ready, and none empties it once the job is ready.  The two deletions are not guarded, so the
      code does not enforce this: see `TwoBuildersPublishTooLittle`.  Any number of workers may page entries. */
  ghost predicate ExclusiveStaging(s: State) {
    && (forall w | Restaging(s, w) :: s.db.job.value.status != Ready)
    && (forall v, w | Restaging(s, v) && Restaging(s, w) :: v == w)
  }

  ghost predicate ExclusiveRun(cal: Calendar, s: State, actions: seq<Action>)
    decreases |actions|
  {
    ExclusiveStaging(s) && (actions != [] ==> ExclusiveRun(cal, Next(cal, s, actions[0]), actions[1..]))
  }

  /* ---------- the invariant ---------- */

  ghost predicate Covered(cal: Calendar, db: Db, j: Job, cursor: Option<Neuron>) {
    PlanEntries(cal, UpTo(db.neurons, cursor), j.zone) <= j.staged.entries
  }

  ghost predicate EntriesComplete(cal: Calendar, db: Db, j: Job) {
    j.staged.entries == PlanEntries(cal, db.neurons, j.zone) && j.staged.buckets == BucketsIn(j.staged.entries)
  }

  ghost predicate Complete(cal: Calendar, db: Db, j: Job) {
    EntriesComplete(cal, db, j) && j.staged.active == Ids(db.neurons) && j.staged.links == Links(j.staged.buckets)
  }

  ghost predicate JobSound(cal: Calendar, db: Db, j: Job) {
    && j.staged.entries <= PlanEntries(cal, db.neurons, j.zone)
    && j.staged.buckets == BucketsIn(j.staged.entries)
    && Covered(cal, db, j, j.cursor)
    && (j.status == Ready ==> Complete(cal, db, j))
  }

  ghost predicate DbInv(cal: Calendar, db: Db) {
    && UniqueIds(db.neurons)
    && (db.projection.None? ==> db.job.None? && (db.revision == 0 ==> db.neurons == {} && db.live == NoTables))
    && (db.projection.Some? && db.projection.value.status == Clean ==>
          && db.job.None?
          && db.projection.value.revision == db.revision
          && db.live == Plan(cal, db.neurons, db.projection.value.zone))
    && (db.job.Some? ==>
          && db.job.value.generation in db.used
          && (db.job.value.token.Some? ==> db.job.value.token.value in db.used)
          && (db.job.value.status == Building ==> db.job.value.token.None?)
          && db.job.value.revision <= db.revision
          && (db.job.value.revision == db.revision ==> JobSound(cal, db, db.job.value)))
  }

  /** How far a worker has come, for a job whose source revision is still current. */
  ghost predicate Progress(cal: Calendar, db: Db, j: Job, k: Worker) {
    match k.pc
    case BuildRead => Covered(cal, db, j, k.cursor)
    case BuildWrite(page) => Covered(cal, db, j, k.cursor) && PageOf(db, k.cursor, page)
    case SnapClear => EntriesComplete(cal, db, j)
    case SnapRead => EntriesComplete(cal, db, j) && j.staged.active == Ids(UpTo(db.neurons, k.cursor))
    case SnapWrite(page) =>
      EntriesComplete(cal, db, j) && j.staged.active == Ids(UpTo(db.neurons, k.cursor)) && PageOf(db, k.cursor, page)
    case StageClear => EntriesComplete(cal, db, j) && j.staged.active == Ids(db.neurons)
    case StageRead => EntriesComplete(cal, db, j) && j.staged.active == Ids(db.neurons) && StageProgress(j, k)
    case StageWrite(page) =>
      && EntriesComplete(cal, db, j) && j.staged.active == Ids(db.neurons) && StageProgress(j, k)
      && page != [] && exists limit: nat :: IsBucketPage(j.staged.buckets, k.bucketCursor, limit, page)
    case MarkReady => Complete(cal, db, j)
    case Finish => k.token.Some? && j.token == k.token && j.status == Ready ==> db.live == Plan(cal, db.neurons, j.zone)
    case _ => true
  }

  ghost predicate PageOf(db: Db, cursor: Option<Neuron>, page: set<Neuron>) {
    page != {} && exists limit: nat :: IsPage(db.neurons, cursor, limit, page)
  }

  ghost predicate StageProgress(j: Job, k: Worker) {
    var done := j.staged.buckets - AfterBucket(j.staged.buckets, k.bucketCursor);
    j.staged.links == Links(done) && LastPerKind(done, k.previous)
  }

  predicate HasGeneration(pc: Pc) {
    Trying(pc) || pc.FailJob? || pc.FailProjection?
  }

  ghost predicate WorkerInv(cal: Calendar, db: Db, k: Worker) {
    && (k.token.Some? ==> k.token.value in db.used)
    && (k.checking ==> Trying(k.pc))
    && (k.pc.Creating? ==> k.pc.observed <= db.revision)
    && (k.pc.Deciding? && k.pc.seen.Some? ==> SeenInv(cal, db, k.pc.seen.value))
    && (HasGeneration(k.pc) ==>
          && k.generation in db.used
          && (Holds(db, k) ==>
                && db.job.value.revision == k.revision
                && db.job.value.zone == k.zone
                && (k.revision == db.revision ==> Progress(cal, db, db.job.value, k))))
  }

  ghost predicate SeenInv(cal: Calendar, db: Db, seen: Job) {
    && seen.generation in db.used
    && (db.job.Some? && db.job.value.generation == seen.generation ==>
          && db.job.value.revision == seen.revision
          && db.job.value.zone == seen.zone
          && (seen.revision == db.revision ==> Covered(cal, db, db.job.value, seen.cursor)))
  }

  ghost predicate Inv(cal: Calendar, s: State) {
    && DbInv(cal, s.db)
    && (forall w | w in s.workers :: WorkerInv(cal, s.db, s.workers[w]))
    && (forall v, w | v in s.workers && w in s.workers && v != w ::
          s.workers[v].token.Some? ==> s.workers[v].token != s.workers[w].token)
  }
}
