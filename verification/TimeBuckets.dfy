/** The time tables of one project: which neuron lies in which day, week and month bucket,
    and which buckets of one kind are neighbours in time.  `Plan` is what the tables should
    hold; the incremental path and the staged rebuild are two ways of getting there. */
module TimeBuckets {
  import opened Options

  datatype BucketKind = Day | Month | Week

  type Zone = nat

  /** A bucket's identity: the source hashes project, zone, kind and range into the bucket id. */
  datatype Bucket = Bucket(zone: Zone, kind: BucketKind, start: int)

  datatype Neuron = Neuron(id: nat, createdAt: int)

  datatype Entry = Entry(bucket: Bucket, neuronId: nat, createdAt: int)

  datatype Tables = Tables(entries: set<Entry>, buckets: set<Bucket>, links: set<(Bucket, Bucket)>)

  /** The calendar: where the bucket of a kind that holds a timestamp starts in a zone. */
  type Calendar = (BucketKind, int, Zone) -> int

  const NoTables := Tables({}, {}, {})

  /* ---------- the plan ---------- */

  function BucketOf(cal: Calendar, n: Neuron, kind: BucketKind, zone: Zone): Bucket {
    Bucket(zone, kind, cal(kind, n.createdAt, zone))
  }

  function BucketsOf(cal: Calendar, n: Neuron, zone: Zone): seq<Bucket> {
    [BucketOf(cal, n, Day, zone), BucketOf(cal, n, Week, zone), BucketOf(cal, n, Month, zone)]
  }

  function EntriesOf(cal: Calendar, n: Neuron, zone: Zone): set<Entry> {
    set b | b in BucketsOf(cal, n, zone) :: Entry(b, n.id, n.createdAt)
  }

  function PlanEntries(cal: Calendar, ns: set<Neuron>, zone: Zone): set<Entry> {
    set n, e | n in ns && e in EntriesOf(cal, n, zone) :: e
  }

  function BucketsIn(entries: set<Entry>): set<Bucket> {
    set e | e in entries :: e.bucket
  }

  predicate SameTrack(a: Bucket, b: Bucket) {
    a.zone == b.zone && a.kind == b.kind
  }

  predicate Between(a: Bucket, c: Bucket, b: Bucket) {
    SameTrack(a, c) && a.start < c.start < b.start
  }

  /** `a` comes immediately before `b` among the buckets of its zone and kind. */
  predicate Follows(bs: set<Bucket>, a: Bucket, b: Bucket) {
    SameTrack(a, b) && a.start < b.start && forall c | c in bs :: !Between(a, c, b)
  }

  predicate Neighbours(bs: set<Bucket>, a: Bucket, b: Bucket) {
    Follows(bs, a, b) || Follows(bs, b, a)
  }

  function Links(bs: set<Bucket>): set<(Bucket, Bucket)> {
    set a, b | a in bs && b in bs && Neighbours(bs, a, b) :: (a, b)
  }

  function Plan(cal: Calendar, ns: set<Neuron>, zone: Zone): Tables {
    var entries := PlanEntries(cal, ns, zone);
    Tables(entries, BucketsIn(entries), Links(BucketsIn(entries)))
  }

  /** Every neuron lies in a bucket of each kind, the one of its creation time, and nothing else lies anywhere. */
  lemma PlanPlacesNeurons(cal: Calendar, ns: set<Neuron>, zone: Zone, n: Neuron, kind: BucketKind)
    requires n in ns
    ensures Entry(Bucket(zone, kind, cal(kind, n.createdAt, zone)), n.id, n.createdAt) in Plan(cal, ns, zone).entries
  {
    var b := BucketOf(cal, n, kind, zone);
    assert b in BucketsOf(cal, n, zone) by {
      var bs := BucketsOf(cal, n, zone);
      assert b == bs[0] || b == bs[1] || b == bs[2];
    }
    assert Entry(b, n.id, n.createdAt) in EntriesOf(cal, n, zone);
  }

  lemma PlannedIsPlaced(cal: Calendar, ns: set<Neuron>, zone: Zone, e: Entry)
    requires e in Plan(cal, ns, zone).entries
    ensures e.bucket.zone == zone
    ensures exists n :: n in ns && n.id == e.neuronId && n.createdAt == e.createdAt
                        && e.bucket.start == cal(e.bucket.kind, n.createdAt, zone)
  {
    var n :| n in ns && e in EntriesOf(cal, n, zone);
    assert n.id == e.neuronId && n.createdAt == e.createdAt;
  }

  /** A bucket is there if something lies in it, and two of them are linked exactly if they are of one kind and nothing
      of that kind lies between them. */
  lemma PlanLinksNeighbours(cal: Calendar, ns: set<Neuron>, zone: Zone, a: Bucket, b: Bucket)
    ensures var t := Plan(cal, ns, zone);
            && (a in t.buckets <==> exists e :: e in t.entries && e.bucket == a)
            && ((a, b) in t.links <==>
                  && a in t.buckets && b in t.buckets && a.kind == b.kind && a.start != b.start
                  && forall c :: c in t.buckets && c.kind == a.kind ==>
                       (c.start <= a.start && c.start <= b.start) || (c.start >= a.start && c.start >= b.start))
  {
    var t := Plan(cal, ns, zone);
    forall c | c in t.buckets ensures c.zone == zone {
      var e :| e in t.entries && e.bucket == c;
      PlannedIsPlaced(cal, ns, zone, e);
    }
  }

  lemma PlanOfUnion(cal: Calendar, ms: set<Neuron>, ns: set<Neuron>, zone: Zone)
    ensures PlanEntries(cal, ms + ns, zone) == PlanEntries(cal, ms, zone) + PlanEntries(cal, ns, zone)
  {
  }

  /* ---------- the incremental path ---------- */

  function Earlier(bs: set<Bucket>, b: Bucket): set<Bucket> {
    set c | c in bs && SameTrack(c, b) && c.start < b.start
  }

  function Later(bs: set<Bucket>, b: Bucket): set<Bucket> {
    set c | c in bs && SameTrack(c, b) && c.start > b.start
  }

  /** A finite, non-empty part of a track has a last bucket. */
  lemma {:induction false} LastExists(bs: set<Bucket>, track: Bucket) returns (last: Bucket)
    requires bs != {} && forall c | c in bs :: SameTrack(c, track)
    ensures last in bs && forall c | c in bs :: c.start <= last.start
  {
    var c :| c in bs;
    if bs == {c} {
      last := c;
    } else {
      var rest := LastExists(bs - {c}, track);
      last := if rest.start < c.start then c else rest;
    }
  }

  /** A finite, non-empty part of a track has a first bucket. */
  lemma {:induction false} FirstExists(bs: set<Bucket>, track: Bucket) returns (first: Bucket)
    requires bs != {} && forall c | c in bs :: SameTrack(c, track)
    ensures first in bs && forall c | c in bs :: first.start <= c.start
  {
    var c :| c in bs;
    if bs == {c} {
      first := c;
    } else {
      var rest := FirstExists(bs - {c}, track);
      first := if c.start < rest.start then c else rest;
    }
  }

  ghost predicate IsPrevious(bs: set<Bucket>, b: Bucket, p: Option<Bucket>) {
    match p
    case None => Earlier(bs, b) == {}
    case Some(a) => a in Earlier(bs, b) && forall c | c in Earlier(bs, b) :: c.start <= a.start
  }

  ghost predicate IsNext(bs: set<Bucket>, b: Bucket, p: Option<Bucket>) {
    match p
    case None => Later(bs, b) == {}
    case Some(a) => a in Later(bs, b) && forall c | c in Later(bs, b) :: a.start <= c.start
  }

  /** The nearest earlier bucket of the track, by a scan of the rows. */
  method FindPrevious(bs: seq<Bucket>, b: Bucket) returns (p: Option<Bucket>)
    ensures IsPrevious((set c | c in bs), b, p)
  {
    p := None;
    ghost var seen: set<Bucket> := {};
    for i := 0 to |bs|
      invariant seen == set c | c in bs[..i]
      invariant IsPrevious(seen, b, p)
    {
      var c := bs[i];
      if SameTrack(c, b) && c.start < b.start && (p.None? || p.value.start < c.start) {
        p := Some(c);
      }
      seen := seen + {c};
      assert bs[..i + 1] == bs[..i] + [c];
    }
    assert bs[..|bs|] == bs;
  }

  /** The nearest later bucket of the track, by a scan of the rows. */
  method FindNext(bs: seq<Bucket>, b: Bucket) returns (p: Option<Bucket>)
    ensures IsNext((set c | c in bs), b, p)
  {
    p := None;
    ghost var seen: set<Bucket> := {};
    for i := 0 to |bs|
      invariant seen == set c | c in bs[..i]
      invariant IsNext(seen, b, p)
    {
      var c := bs[i];
      if SameTrack(c, b) && c.start > b.start && (p.None? || c.start < p.value.start) {
        p := Some(c);
      }
      seen := seen + {c};
      assert bs[..i + 1] == bs[..i] + [c];
    }
    assert bs[..|bs|] == bs;
  }

  function Both(a: Bucket, b: Bucket): set<(Bucket, Bucket)> {
    {(a, b), (b, a)}
  }

  function Touching(links: set<(Bucket, Bucket)>, b: Bucket): set<(Bucket, Bucket)> {
    set l | l in links && (l.0 == b || l.1 == b)
  }

  /** The effect of one bucket's turn in the incremental sync. */
  function Relinked(links: set<(Bucket, Bucket)>, b: Bucket, p: Option<Bucket>, n: Option<Bucket>): set<(Bucket, Bucket)> {
    var cleared := links - Touching(links, b);
    var parted := if p.Some? && n.Some? then cleared - Both(p.value, n.value) else cleared;
    parted + (if p.Some? then Both(b, p.value) else {}) + (if n.Some? then Both(b, n.value) else {})
  }

  function OnTrack(links: set<(Bucket, Bucket)>, b: Bucket): set<(Bucket, Bucket)> {
    set l | l in links && SameTrack(l.0, b)
  }

  ghost predicate TracksAgree(links: set<(Bucket, Bucket)>, bs: set<Bucket>, b: Bucket) {
    OnTrack(links, b) == OnTrack(Links(bs), b)
  }

  /** Only links whose ends share a track. */
  predicate Tracked(links: set<(Bucket, Bucket)>) {
    forall l | l in links :: SameTrack(l.0, l.1)
  }

  /** Relinking one bucket brings its track up to date, whether the bucket is new or already there. */
  lemma RelinkRepairsTrack(links: set<(Bucket, Bucket)>, was: set<Bucket>, bs: set<Bucket>,
                           b: Bucket, p: Option<Bucket>, n: Option<Bucket>)
    requires Tracked(links) && TracksAgree(links, was, b)
    requires b in bs && was <= bs
    requires forall c | c in bs && SameTrack(c, b) && c != b :: c in was
    requires IsPrevious(bs, b, p) && IsNext(bs, b, n)
    ensures Tracked(Relinked(links, b, p, n)) && TracksAgree(Relinked(links, b, p, n), bs, b)
    ensures forall c: Bucket | !SameTrack(c, b) :: OnTrack(Relinked(links, b, p, n), c) == OnTrack(links, c)
  {
    var after := Relinked(links, b, p, n);
    assert Tracked(after);
    forall l: (Bucket, Bucket) | SameTrack(l.0, b)
      ensures l in after <==> l in Links(bs)
    {
      RelinkedLink(links, was, bs, b, p, n, l.0, l.1);
    }
    forall c: Bucket | !SameTrack(c, b)
      ensures OnTrack(after, c) == OnTrack(links, c)
    {
      forall l: (Bucket, Bucket)
        ensures l in OnTrack(after, c) <==> l in OnTrack(links, c)
      {
      }
    }
  }

  lemma PreviousIsUnique(bs: set<Bucket>, b: Bucket, p: Option<Bucket>, y: Bucket)
    requires b in bs && IsPrevious(bs, b, p)
    ensures y in bs && Follows(bs, y, b) <==> p == Some(y)
  {
    if y in bs && Follows(bs, y, b) {
      assert y in Earlier(bs, b);
      assert !Between(y, p.value, b);
    }
  }

  lemma NextIsUnique(bs: set<Bucket>, b: Bucket, n: Option<Bucket>, y: Bucket)
    requires b in bs && IsNext(bs, b, n)
    ensures y in bs && Follows(bs, b, y) <==> n == Some(y)
  {
    if y in bs && Follows(bs, b, y) {
      assert y in Later(bs, b);
      assert !Between(b, n.value, y);
    }
  }

  /** Two buckets that were neighbours stop being so exactly when the new bucket falls between them. */
  lemma FollowsAfterInsert(was: set<Bucket>, bs: set<Bucket>, b: Bucket, p: Option<Bucket>, n: Option<Bucket>,
                           lo: Bucket, hi: Bucket)
    requires b in bs && was <= bs && lo != b && hi != b && lo in bs && hi in bs
    requires forall c | c in bs && SameTrack(c, b) && c != b :: c in was
    requires IsPrevious(bs, b, p) && IsNext(bs, b, n)
    requires SameTrack(lo, b)
    ensures Follows(bs, lo, hi) <==> Follows(was, lo, hi) && !(p == Some(lo) && n == Some(hi))
  {
    if Follows(was, lo, hi) && Between(lo, b, hi) {
      assert lo in Earlier(bs, b) && hi in Later(bs, b);
      assert !Between(lo, p.value, hi);
      assert !Between(lo, n.value, hi);
      assert p == Some(lo) && n == Some(hi);
    } else if Follows(was, lo, hi) {
      assert forall c | c in bs && c != b :: Between(lo, c, hi) ==> c in was;
    }
  }

  lemma RelinkedLink(links: set<(Bucket, Bucket)>, was: set<Bucket>, bs: set<Bucket>,
                     b: Bucket, p: Option<Bucket>, n: Option<Bucket>, x: Bucket, y: Bucket)
    requires Tracked(links) && TracksAgree(links, was, b)
    requires b in bs && was <= bs
    requires forall c | c in bs && SameTrack(c, b) && c != b :: c in was
    requires IsPrevious(bs, b, p) && IsNext(bs, b, n)
    requires SameTrack(x, b)
    ensures (x, y) in Relinked(links, b, p, n) <==> (x, y) in Links(bs)
  {
    if x == b || y == b {
      PreviousIsUnique(bs, b, p, if x == b then y else x);
      NextIsUnique(bs, b, n, if x == b then y else x);
    } else {
      assert (x, y) in links <==> (x, y) in OnTrack(links, b);
      assert (x, y) in links <==> (x, y) in Links(was);
      if x in bs && y in bs && SameTrack(x, y) {
        FollowsAfterInsert(was, bs, b, p, n, x, y);
        FollowsAfterInsert(was, bs, b, p, n, y, x);
      }
    }
  }

  /* ---------- the whole sync ---------- */

  ghost function PreviousOf(bs: set<Bucket>, b: Bucket): (p: Option<Bucket>)
    ensures IsPrevious(bs, b, p)
  {
    if Earlier(bs, b) == {} then None
    else
      assert exists a :: a in Earlier(bs, b) && forall c | c in Earlier(bs, b) :: c.start <= a.start by {
        var a := LastExists(Earlier(bs, b), b);
      }
      var a :| a in Earlier(bs, b) && forall c | c in Earlier(bs, b) :: c.start <= a.start;
      Some(a)
  }

  ghost function NextOf(bs: set<Bucket>, b: Bucket): (n: Option<Bucket>)
    ensures IsNext(bs, b, n)
  {
    if Later(bs, b) == {} then None
    else
      assert exists a :: a in Later(bs, b) && forall c | c in Later(bs, b) :: a.start <= c.start by {
        var a := FirstExists(Later(bs, b), b);
      }
      var a :| a in Later(bs, b) && forall c | c in Later(bs, b) :: a.start <= c.start;
      Some(a)
  }

  ghost function Synced(links: set<(Bucket, Bucket)>, bs: set<Bucket>, added: seq<Bucket>): set<(Bucket, Bucket)>
    decreases |added|
  {
    if added == [] then links
    else
      var b := added[0];
      Synced(Relinked(links, b, PreviousOf(bs, b), NextOf(bs, b)), bs, added[1..])
  }

  /** The incremental sync as the store runs it: one bucket after the other, each with its two look-ups,
      the removal of what it touched and of the link it parts, and up to four inserted rows. */
  method SyncBuckets(rows: seq<Bucket>, links: set<(Bucket, Bucket)>, added: seq<Bucket>)
    returns (synced: set<(Bucket, Bucket)>)
    ensures synced == Synced(links, (set c | c in rows), added)
  {
    ghost var bs := set c | c in rows;
    synced := links;
    for i := 0 to |added|
      invariant Synced(synced, bs, added[i..]) == Synced(links, bs, added)
    {
      var b := added[i];
      var p := FindPrevious(rows, b);
      var n := FindNext(rows, b);
      assert p == PreviousOf(bs, b) && n == NextOf(bs, b);
      assert added[i..][0] == b && added[i..][1..] == added[i + 1..];
      ghost var before := synced;
      synced := synced - Touching(synced, b);
      if p.Some? && n.Some? {
        synced := synced - Both(p.value, n.value);
      }
      if p.Some? {
        synced := synced + Both(b, p.value);
      }
      if n.Some? {
        synced := synced + Both(b, n.value);
      }
      assert synced == Relinked(before, b, p, n);
    }
  }

  predicate OnePerTrack(added: seq<Bucket>) {
    forall i, j | 0 <= i < j < |added| :: !SameTrack(added[i], added[j])
  }

  /** On every track the links are right for `bs` once its new bucket has been synced, for `was` before. */
  lemma {:induction false} SyncedTrack(links: set<(Bucket, Bucket)>, was: set<Bucket>, bs: set<Bucket>,
                                       added: seq<Bucket>, track: Bucket)
    requires Tracked(links) && OnePerTrack(added) && was <= bs
    requires forall b | b in added :: b in bs && TracksAgree(links, was, b)
    requires forall b, c | b in added && c in bs && SameTrack(c, b) && c != b :: c in was
    ensures Tracked(Synced(links, bs, added))
    ensures OnTrack(Synced(links, bs, added), track) ==
            if exists b :: b in added && SameTrack(b, track) then OnTrack(Links(bs), track) else OnTrack(links, track)
    decreases |added|
  {
    if added != [] {
      var b := added[0];
      var p, n := PreviousOf(bs, b), NextOf(bs, b);
      var next := Relinked(links, b, p, n);
      RelinkRepairsTrack(links, was, bs, b, p, n);
      forall c | c in added[1..]
        ensures TracksAgree(next, was, c)
      {
        assert c in added && !SameTrack(c, b);
      }
      SyncedTrack(next, was, bs, added[1..], track);
      if SameTrack(b, track) {
        assert OnTrack(next, track) == OnTrack(next, b);
        assert OnTrack(Links(bs), track) == OnTrack(Links(bs), b);
        assert forall c | c in added[1..] :: !SameTrack(c, track);
      } else {
        assert (exists c :: c in added && SameTrack(c, track)) <==> (exists c :: c in added[1..] && SameTrack(c, track));
      }
    }
  }

  /** Adding one neuron to tables that follow the plan, the way ingest does, gives the plan of the larger set:
      the incremental path refines the full rebuild. */
  lemma IncrementalIngestIsPlan(cal: Calendar, ns: set<Neuron>, n: Neuron, zone: Zone)
    ensures Ingested(cal, Plan(cal, ns, zone), n, zone) == Plan(cal, ns + {n}, zone)
  {
    var before := Plan(cal, ns, zone);
    var added := BucketsOf(cal, n, zone);
    var bs := before.buckets + (set b | b in added);
    PlanOfUnion(cal, ns, {n}, zone);
    assert PlanEntries(cal, {n}, zone) == EntriesOf(cal, n, zone);
    assert BucketsIn(EntriesOf(cal, n, zone)) == set b | b in added by {
      forall b | b in added
        ensures b in BucketsIn(EntriesOf(cal, n, zone))
      {
        assert Entry(b, n.id, n.createdAt) in EntriesOf(cal, n, zone);
      }
    }
    assert bs == Plan(cal, ns + {n}, zone).buckets;
    SyncReachesLinks(before.buckets, bs, added);
  }

  lemma SyncReachesLinks(was: set<Bucket>, bs: set<Bucket>, added: seq<Bucket>)
    requires OnePerTrack(added) && bs == was + set b | b in added
    ensures Synced(Links(was), bs, added) == Links(bs)
  {
    var synced := Synced(Links(was), bs, added);
    forall b, c | b in added && c in bs && SameTrack(c, b) && c != b
      ensures c in was
    {
    }
    forall l: (Bucket, Bucket)
      ensures l in synced <==> l in Links(bs)
    {
      var (x, y) := l;
      SyncedTrack(Links(was), was, bs, added, x);
      assert (x, y) in synced <==> (x, y) in OnTrack(synced, x);
      assert (x, y) in Links(bs) <==> (x, y) in OnTrack(Links(bs), x);
      if !exists b :: b in added && SameTrack(b, x) {
        UntouchedTrack(was, bs, x, y);
      }
    }
  }

  lemma UntouchedTrack(was: set<Bucket>, bs: set<Bucket>, x: Bucket, y: Bucket)
    requires was <= bs && forall c | c in bs && SameTrack(c, x) :: c in was
    ensures (x, y) in Links(was) <==> (x, y) in Links(bs)
  {
    assert forall c | SameTrack(c, x) :: c in was <==> c in bs;
  }

  /** What an ingest with the temporal path enabled leaves in the time tables. */
  ghost function Ingested(cal: Calendar, t: Tables, n: Neuron, zone: Zone): Tables {
    var added := BucketsOf(cal, n, zone);
    var bs := t.buckets + set b | b in added;
    Tables(t.entries + EntriesOf(cal, n, zone), bs, Synced(t.links, bs, added))
  }
}
