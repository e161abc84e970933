/** Episode-to-episode relations: for every hint, the episodes that carry it are sorted by start and linked
    one after the other.  These sparse chains stand for the all-pairs relation "shares a hint". */
module EpisodeRelations {

  datatype Projection = Projection(id: nat, startedAt: int, issueHints: seq<string>, topicHints: seq<string>)

  datatype Relation = SameIssue | FollowsUp | RelatedTo

  /** A relation from the `left` to the `right` projection, by position in the list being projected. */
  datatype Row = Row(left: nat, right: nat, relation: Relation)

  type Normalizer = string -> string

  /* ---------- hints and buckets ---------- */

  /** The hints after normalisation, without blanks and repeats, in order of first occurrence. */
  function NormalizedHints(norm: Normalizer, raw: seq<string>): seq<string>
    decreases |raw|
  {
    if raw == [] then []
    else
      var kept, hint := NormalizedHints(norm, raw[..|raw| - 1]), norm(raw[|raw| - 1]);
      if hint == "" || hint in kept then kept else kept + [hint]
  }

  lemma {:induction false} NormalizedHintsAre(norm: Normalizer, raw: seq<string>, h: string)
    ensures h in NormalizedHints(norm, raw) <==> h != "" && exists x :: x in raw && norm(x) == h
    decreases |raw|
  {
    if raw != [] {
      var init, last := raw[..|raw| - 1], raw[|raw| - 1];
      NormalizedHintsAre(norm, init, h);
      assert raw == init + [last];
    }
  }

  lemma {:induction false} NormalizedHintsDistinct(norm: Normalizer, raw: seq<string>)
    ensures forall i, j | 0 <= i < j < |NormalizedHints(norm, raw)| :: NormalizedHints(norm, raw)[i] != NormalizedHints(norm, raw)[j]
    decreases |raw|
  {
    if raw != [] {
      NormalizedHintsDistinct(norm, raw[..|raw| - 1]);
    }
  }

  datatype Facet = Issues | Topics

  function HintsOf(norm: Normalizer, p: Projection, f: Facet): seq<string> {
    NormalizedHints(norm, if f.Issues? then p.issueHints else p.topicHints)
  }

  /** The hint is the normal form of one of the episode's own, and not blank. */
  ghost predicate Carries(norm: Normalizer, ps: seq<Projection>, f: Facet, h: string, i: nat) {
    && i < |ps| && h != ""
    && match f
       case Issues => exists x :: x in ps[i].issueHints && norm(x) == h
       case Topics => exists x :: x in ps[i].topicHints && norm(x) == h
  }

  lemma CarriedHints(norm: Normalizer, ps: seq<Projection>, f: Facet, h: string, i: nat)
    requires i < |ps|
    ensures h in HintsOf(norm, ps[i], f) <==> Carries(norm, ps, f, h, i)
  {
    NormalizedHintsAre(norm, if f.Issues? then ps[i].issueHints else ps[i].topicHints, h);
  }

  /** The positions, in ascending order, of the first `n` projections that carry the hint. */
  ghost function Bucket(norm: Normalizer, ps: seq<Projection>, f: Facet, h: string, n: nat): (r: seq<nat>)
    requires n <= |ps|
    ensures forall k | 0 <= k < |r| :: r[k] < n
  {
    if n == 0 then []
    else
      var before := Bucket(norm, ps, f, h, n - 1);
      if Carries(norm, ps, f, h, n - 1) then before + [n - 1] else before
  }

  lemma {:induction false} BucketMembers(norm: Normalizer, ps: seq<Projection>, f: Facet, h: string, n: nat, i: nat)
    requires n <= |ps|
    ensures i in Bucket(norm, ps, f, h, n) <==> i < n && Carries(norm, ps, f, h, i)
  {
    if n > 0 {
      BucketMembers(norm, ps, f, h, n - 1, i);
      var before, r := Bucket(norm, ps, f, h, n - 1), Bucket(norm, ps, f, h, n);
      if Carries(norm, ps, f, h, n - 1) {
        assert r == before + [n - 1];
        assert i in r <==> i in before || i == n - 1;
      } else {
        assert r == before;
      }
    }
  }

  predicate Ascending(xs: seq<nat>) {
    forall a, b | 0 <= a < b < |xs| :: xs[a] < xs[b]
  }

  lemma {:induction false} BucketAscends(norm: Normalizer, ps: seq<Projection>, f: Facet, h: string, n: nat)
    requires n <= |ps|
    ensures Ascending(Bucket(norm, ps, f, h, n))
  {
    if n > 0 {
      BucketAscends(norm, ps, f, h, n - 1);
      var before := Bucket(norm, ps, f, h, n - 1);
      assert Ascending(before + [n - 1]);
    }
  }

  function At(buckets: map<string, seq<nat>>, h: string): seq<nat> {
    if h in buckets then buckets[h] else []
  }

  /** Push one projection into the bucket of each of its hints. */
  method PushProjection(keys0: seq<string>, buckets0: map<string, seq<nat>>, hints: seq<string>, n: nat)
    returns (keys: seq<string>, buckets: map<string, seq<nat>>)
    requires forall h :: h in keys0 <==> h in buckets0
    requires forall i, j | 0 <= i < j < |hints| :: hints[i] != hints[j]
    ensures forall h :: h in keys <==> h in buckets
    ensures forall h :: At(buckets, h) == if h in hints then At(buckets0, h) + [n] else At(buckets0, h)
  {
    keys, buckets := keys0, buckets0;
    for k := 0 to |hints|
      invariant forall h :: h in keys <==> h in buckets
      invariant forall h :: At(buckets, h) == if h in hints[..k] then At(buckets0, h) + [n] else At(buckets0, h)
    {
      var hint := hints[k];
      assert hints[..k + 1] == hints[..k] + [hint];
      var before := At(buckets, hint);
      if hint !in buckets {
        keys := keys + [hint];
      }
      buckets := buckets[hint := before + [n]];
    }
    assert hints[..|hints|] == hints;
  }

  /** The map that is filled projection by projection, and the order in which its keys first appeared. */
  method BucketByHint(norm: Normalizer, ps: seq<Projection>, f: Facet) returns (keys: seq<string>, buckets: map<string, seq<nat>>)
    ensures forall h :: h in keys <==> h in buckets
    ensures forall h :: At(buckets, h) == Bucket(norm, ps, f, h, |ps|)
  {
    keys, buckets := [], map[];
    for n := 0 to |ps|
      invariant forall h :: h in keys <==> h in buckets
      invariant forall h :: At(buckets, h) == Bucket(norm, ps, f, h, n)
    {
      NormalizedHintsDistinct(norm, if f.Issues? then ps[n].issueHints else ps[n].topicHints);
      forall h ensures h in HintsOf(norm, ps[n], f) <==> Carries(norm, ps, f, h, n) {
        CarriedHints(norm, ps, f, h, n);
      }
      keys, buckets := PushProjection(keys, buckets, HintsOf(norm, ps[n], f), n);
    }
  }

  /* ---------- sorting a bucket ---------- */

  /** Earlier start first, and list order between equal starts. */
  predicate Earlier(ps: seq<Projection>, i: nat, j: nat)
    requires i < |ps| && j < |ps|
  {
    ps[i].startedAt < ps[j].startedAt || (ps[i].startedAt == ps[j].startedAt && i < j)
  }

  predicate Positions(ps: seq<Projection>, xs: seq<nat>) {
    forall k | 0 <= k < |xs| :: xs[k] < |ps|
  }

  predicate Chronological(ps: seq<Projection>, xs: seq<nat>)
    requires Positions(ps, xs)
  {
    forall a, b | 0 <= a < b < |xs| :: Earlier(ps, xs[a], xs[b])
  }

  /** Insertion behind everything that does not start later, so that the sort is stable. */
  function InsertByStart(ps: seq<Projection>, x: nat, xs: seq<nat>): (r: seq<nat>)
    requires x < |ps| && Positions(ps, xs)
    ensures Positions(ps, r) && |r| == |xs| + 1 && forall y: nat :: y in r <==> y == x || y in xs
    decreases |xs|
  {
    if xs == [] then [x]
    else
      assert xs == xs[..|xs| - 1] + [xs[|xs| - 1]];
      if ps[xs[|xs| - 1]].startedAt <= ps[x].startedAt then xs + [x]
      else InsertByStart(ps, x, xs[..|xs| - 1]) + [xs[|xs| - 1]]
  }

  function SortByStart(ps: seq<Projection>, xs: seq<nat>): (r: seq<nat>)
    requires Positions(ps, xs)
    ensures Positions(ps, r) && |r| == |xs| && forall y: nat :: y in r <==> y in xs
    decreases |xs|
  {
    if xs == [] then []
    else
      assert xs == xs[..|xs| - 1] + [xs[|xs| - 1]];
      InsertByStart(ps, xs[|xs| - 1], SortByStart(ps, xs[..|xs| - 1]))
  }

  lemma {:induction false} InsertIsChronological(ps: seq<Projection>, x: nat, xs: seq<nat>)
    requires x < |ps| && Positions(ps, xs) && Chronological(ps, xs) && forall k | 0 <= k < |xs| :: xs[k] < x
    ensures Chronological(ps, InsertByStart(ps, x, xs))
    decreases |xs|
  {
    if xs != [] {
      var init, last := xs[..|xs| - 1], xs[|xs| - 1];
      assert xs == init + [last];
      if ps[last].startedAt > ps[x].startedAt {
        InsertIsChronological(ps, x, init);
        var r := InsertByStart(ps, x, init);
        forall y: nat | y in r
          ensures Earlier(ps, y, last)
        {
          if y != x {
            assert y in init;
            var k :| 0 <= k < |init| && init[k] == y;
            assert Earlier(ps, xs[k], xs[|xs| - 1]);
          }
        }
      } else {
        forall y: nat | y in xs
          ensures Earlier(ps, y, x)
        {
          var k :| 0 <= k < |xs| && xs[k] == y;
          assert k == |xs| - 1 || Earlier(ps, xs[k], xs[|xs| - 1]);
        }
      }
    }
  }

  lemma {:induction false} SortIsChronological(ps: seq<Projection>, xs: seq<nat>)
    requires Positions(ps, xs) && Ascending(xs)
    ensures Chronological(ps, SortByStart(ps, xs))
    decreases |xs|
  {
    if xs != [] {
      var init, last := xs[..|xs| - 1], xs[|xs| - 1];
      SortIsChronological(ps, init);
      var sorted := SortByStart(ps, init);
      forall k | 0 <= k < |sorted|
        ensures sorted[k] < last
      {
        assert sorted[k] in sorted;
        assert sorted[k] in init;
      }
      InsertIsChronological(ps, last, SortByStart(ps, init));
    }
  }

  /* ---------- consecutive carriers ---------- */

  /** `a` and `b` carry the hint and no carrier comes between them. */
  ghost predicate Consecutive(norm: Normalizer, ps: seq<Projection>, f: Facet, h: string, a: nat, b: nat) {
    && Carries(norm, ps, f, h, a) && Carries(norm, ps, f, h, b) && Earlier(ps, a, b)
    && forall c: nat | Carries(norm, ps, f, h, c) :: !(Earlier(ps, a, c) && Earlier(ps, c, b))
  }

  ghost function Sorted(norm: Normalizer, ps: seq<Projection>, f: Facet, h: string): (r: seq<nat>)
    ensures Positions(ps, r)
  {
    SortByStart(ps, Bucket(norm, ps, f, h, |ps|))
  }

  lemma SortedCarriers(norm: Normalizer, ps: seq<Projection>, f: Facet, h: string)
    ensures Chronological(ps, Sorted(norm, ps, f, h))
    ensures forall i: nat :: i in Sorted(norm, ps, f, h) <==> Carries(norm, ps, f, h, i)
  {
    BucketAscends(norm, ps, f, h, |ps|);
    SortIsChronological(ps, Bucket(norm, ps, f, h, |ps|));
    forall i: nat
      ensures i in Sorted(norm, ps, f, h) <==> Carries(norm, ps, f, h, i)
    {
      BucketMembers(norm, ps, f, h, |ps|, i);
    }
  }

  /** The pairs a sorted bucket puts side by side are exactly the consecutive carriers. */
  lemma SideBySide(norm: Normalizer, ps: seq<Projection>, f: Facet, h: string, k: nat)
    requires 0 < k < |Sorted(norm, ps, f, h)|
    ensures Consecutive(norm, ps, f, h, Sorted(norm, ps, f, h)[k - 1], Sorted(norm, ps, f, h)[k])
  {
    var sorted := Sorted(norm, ps, f, h);
    SortedCarriers(norm, ps, f, h);
    assert sorted[k - 1] in sorted && sorted[k] in sorted;
    forall c: nat | Carries(norm, ps, f, h, c)
      ensures !(Earlier(ps, sorted[k - 1], c) && Earlier(ps, c, sorted[k]))
    {
      assert c in sorted;
      var m :| 0 <= m < |sorted| && sorted[m] == c;
      if m < k - 1 {
        assert Earlier(ps, sorted[m], sorted[k - 1]);
      } else if k < m {
        assert Earlier(ps, sorted[k], sorted[m]);
      }
    }
  }

  lemma ConsecutiveSideBySide(norm: Normalizer, ps: seq<Projection>, f: Facet, h: string, a: nat, b: nat) returns (k: nat)
    requires Consecutive(norm, ps, f, h, a, b)
    ensures 0 < k < |Sorted(norm, ps, f, h)| && Sorted(norm, ps, f, h)[k - 1] == a && Sorted(norm, ps, f, h)[k] == b
  {
    var sorted := Sorted(norm, ps, f, h);
    SortedCarriers(norm, ps, f, h);
    assert a in sorted && b in sorted;
    var i :| 0 <= i < |sorted| && sorted[i] == a;
    k :| 0 <= k < |sorted| && sorted[k] == b;
    NextInOrder(ps, sorted, i, k);
  }

  lemma NextInOrder(ps: seq<Projection>, sorted: seq<nat>, i: nat, k: nat)
    requires Positions(ps, sorted) && Chronological(ps, sorted) && i < |sorted| && k < |sorted|
    requires Earlier(ps, sorted[i], sorted[k])
    requires forall c: nat | c in sorted :: !(Earlier(ps, sorted[i], c) && Earlier(ps, c, sorted[k]))
    ensures k == i + 1
  {
    assert i < k;
    assert sorted[i + 1] in sorted;
  }

  /* ---------- emitting the relations ---------- */

  /** What the deduplication set holds: unordered for symmetric relations, ordered for FOLLOWS_UP. */
  datatype Key = Key(relation: Relation, first: nat, second: nat)

  function RelationKey(ps: seq<Projection>, r: Row): Key
    requires r.left < |ps| && r.right < |ps|
  {
    var a, b := ps[r.left].id, ps[r.right].id;
    if r.relation.FollowsUp? || a <= b then Key(r.relation, a, b) else Key(r.relation, b, a)
  }

  predicate UniqueIds(ps: seq<Projection>) {
    forall i, j | 0 <= i < j < |ps| :: ps[i].id != ps[j].id
  }

  predicate InRange(ps: seq<Projection>, r: Row) {
    r.left < |ps| && r.right < |ps|
  }

  ghost predicate IssueLinked(norm: Normalizer, ps: seq<Projection>, a: nat, b: nat) {
    exists h :: Consecutive(norm, ps, Issues, h, a, b)
  }

  /** The raw issue hints, not the normalised ones, decide whether a topic relation is redundant. */
  predicate ShareRawIssue(a: Projection, b: Projection) {
    exists x :: x in a.issueHints && x in b.issueHints
  }

  ghost predicate TopicLinked(norm: Normalizer, ps: seq<Projection>, a: nat, b: nat) {
    && a < |ps| && b < |ps|
    && (forall x :: x in ps[a].issueHints ==> x !in ps[b].issueHints)
    && exists h :: Consecutive(norm, ps, Topics, h, a, b)
  }

  ghost predicate Justified(norm: Normalizer, ps: seq<Projection>, r: Row) {
    match r.relation
    case SameIssue => IssueLinked(norm, ps, r.left, r.right)
    case FollowsUp => IssueLinked(norm, ps, r.right, r.left)
    case RelatedTo => TopicLinked(norm, ps, r.left, r.right)
  }

  ghost predicate RowSound(norm: Normalizer, ps: seq<Projection>, seen: set<Key>, r: Row) {
    InRange(ps, r) && Justified(norm, ps, r) && RelationKey(ps, r) in seen
  }

  predicate HasRow(ps: seq<Projection>, rows: seq<Row>, k: Key) {
    exists r :: r in rows && InRange(ps, r) && RelationKey(ps, r) == k
  }

  predicate Distinct(rows: seq<Row>) {
    forall i, j | 0 <= i < j < |rows| :: rows[i] != rows[j]
  }

  ghost predicate Emitted(norm: Normalizer, ps: seq<Projection>, rows: seq<Row>, seen: set<Key>) {
    && (forall r {:trigger RowSound(norm, ps, seen, r)} | r in rows :: RowSound(norm, ps, seen, r))
    && (forall k {:trigger HasRow(ps, rows, k)} | k in seen :: HasRow(ps, rows, k))
    && Distinct(rows)
  }

  /** One relation of the loop body: written and remembered unless its key was seen. */
  method Emit(norm: Normalizer, ps: seq<Projection>, rows0: seq<Row>, seen0: set<Key>, r: Row)
    returns (rows: seq<Row>, seen: set<Key>)
    requires Emitted(norm, ps, rows0, seen0) && InRange(ps, r) && Justified(norm, ps, r)
    ensures Emitted(norm, ps, rows, seen) && seen == seen0 + {RelationKey(ps, r)}
  {
    var key := RelationKey(ps, r);
    rows, seen := rows0, seen0;
    if key !in seen {
      NotEmittedYet(norm, ps, rows, seen, r);
      rows := rows + [r];
      seen := seen + {key};
      EmittedGrows(norm, ps, rows0, seen0, r);
    }
  }

  lemma NotEmittedYet(norm: Normalizer, ps: seq<Projection>, rows: seq<Row>, seen: set<Key>, r: Row)
    requires Emitted(norm, ps, rows, seen) && InRange(ps, r) && RelationKey(ps, r) !in seen
    ensures r !in rows
  {
    assert r in rows ==> RowSound(norm, ps, seen, r);
  }

  lemma EmittedGrows(norm: Normalizer, ps: seq<Projection>, rows: seq<Row>, seen: set<Key>, r: Row)
    requires Emitted(norm, ps, rows, seen) && InRange(ps, r) && Justified(norm, ps, r) && r !in rows
    ensures Emitted(norm, ps, rows + [r], seen + {RelationKey(ps, r)})
  {
    var more, after := rows + [r], seen + {RelationKey(ps, r)};
    forall q | q in more
      ensures RowSound(norm, ps, after, q)
    {
      if q != r { assert RowSound(norm, ps, seen, q); }
    }
    forall k | k in after
      ensures HasRow(ps, more, k)
    {
      if k == RelationKey(ps, r) {
        assert r in more;
      } else {
        assert HasRow(ps, rows, k);
        var q :| q in rows && InRange(ps, q) && RelationKey(ps, q) == k;
        assert q in more;
      }
    }
  }

  function SameIssueKey(ps: seq<Projection>, xs: seq<nat>, k: nat): Key
    requires Positions(ps, xs) && 0 < k < |xs|
  {
    RelationKey(ps, Row(xs[k - 1], xs[k], SameIssue))
  }

  function FollowsKey(ps: seq<Projection>, xs: seq<nat>, k: nat): Key
    requires Positions(ps, xs) && 0 < k < |xs|
  {
    RelationKey(ps, Row(xs[k], xs[k - 1], FollowsUp))
  }

  function RelatedKey(ps: seq<Projection>, xs: seq<nat>, k: nat): Key
    requires Positions(ps, xs) && 0 < k < |xs|
  {
    RelationKey(ps, Row(xs[k - 1], xs[k], RelatedTo))
  }

  method EmitPair(norm: Normalizer, ps: seq<Projection>, rows0: seq<Row>, seen0: set<Key>, older: nat, newer: nat, ghost h: string)
    returns (rows: seq<Row>, seen: set<Key>)
    requires Emitted(norm, ps, rows0, seen0) && Consecutive(norm, ps, Issues, h, older, newer)
    ensures Emitted(norm, ps, rows, seen)
    ensures seen == seen0 + {RelationKey(ps, Row(older, newer, SameIssue)), RelationKey(ps, Row(newer, older, FollowsUp))}
  {
    assert IssueLinked(norm, ps, older, newer);
    rows, seen := Emit(norm, ps, rows0, seen0, Row(older, newer, SameIssue));
    rows, seen := Emit(norm, ps, rows, seen, Row(newer, older, FollowsUp));
  }

  ghost predicate ChainOf(norm: Normalizer, ps: seq<Projection>, f: Facet, h: string, xs: seq<nat>) {
    forall k {:trigger LinkAt(norm, ps, f, h, xs, k)} | 0 < k < |xs| :: LinkAt(norm, ps, f, h, xs, k)
  }

  ghost predicate LinkAt(norm: Normalizer, ps: seq<Projection>, f: Facet, h: string, xs: seq<nat>, k: int) {
    0 < k < |xs| && Consecutive(norm, ps, f, h, xs[k - 1], xs[k])
  }

  lemma SortedIsChain(norm: Normalizer, ps: seq<Projection>, f: Facet, h: string)
    ensures ChainOf(norm, ps, f, h, Sorted(norm, ps, f, h))
  {
    forall k | 0 < k < |Sorted(norm, ps, f, h)|
      ensures LinkAt(norm, ps, f, h, Sorted(norm, ps, f, h), k)
    {
      SideBySide(norm, ps, f, h, k);
    }
  }

  /** The inner loop over one sorted issue bucket. */
  method LinkIssueBucket(norm: Normalizer, ps: seq<Projection>, ghost h: string, xs: seq<nat>, rows0: seq<Row>, seen0: set<Key>)
    returns (rows: seq<Row>, seen: set<Key>)
    requires Emitted(norm, ps, rows0, seen0) && Positions(ps, xs) && ChainOf(norm, ps, Issues, h, xs)
    ensures Emitted(norm, ps, rows, seen) && seen0 <= seen
    ensures forall k | 0 < k < |xs| :: SameIssueKey(ps, xs, k) in seen && FollowsKey(ps, xs, k) in seen
  {
    rows, seen := rows0, seen0;
    var index := 1;
    while index < |xs|
      invariant 1 <= index
      invariant Emitted(norm, ps, rows, seen) && seen0 <= seen
      invariant forall k | 0 < k < index && k < |xs| :: SameIssueKey(ps, xs, k) in seen && FollowsKey(ps, xs, k) in seen
    {
      assert LinkAt(norm, ps, Issues, h, xs, index);
      rows, seen := EmitPair(norm, ps, rows, seen, xs[index - 1], xs[index], h);
      index := index + 1;
    }
  }

  /** The inner loop over one sorted topic bucket. */
  method LinkTopicBucket(norm: Normalizer, ps: seq<Projection>, ghost h: string, xs: seq<nat>, rows0: seq<Row>, seen0: set<Key>)
    returns (rows: seq<Row>, seen: set<Key>)
    requires Emitted(norm, ps, rows0, seen0) && Positions(ps, xs) && ChainOf(norm, ps, Topics, h, xs)
    ensures Emitted(norm, ps, rows, seen) && seen0 <= seen
    ensures forall k | 0 < k < |xs| && !ShareRawIssue(ps[xs[k - 1]], ps[xs[k]]) :: RelatedKey(ps, xs, k) in seen
  {
    rows, seen := rows0, seen0;
    var index := 1;
    while index < |xs|
      invariant 1 <= index
      invariant Emitted(norm, ps, rows, seen) && seen0 <= seen
      invariant forall k | 0 < k < index && k < |xs| && !ShareRawIssue(ps[xs[k - 1]], ps[xs[k]]) :: RelatedKey(ps, xs, k) in seen
    {
      if !ShareRawIssue(ps[xs[index - 1]], ps[xs[index]]) {
        assert TopicLinked(norm, ps, xs[index - 1], xs[index]) by {
          assert LinkAt(norm, ps, Topics, h, xs, index);
        }
        rows, seen := Emit(norm, ps, rows, seen, Row(xs[index - 1], xs[index], RelatedTo));
      }
      index := index + 1;
    }
  }

  ghost predicate IssuesDone(norm: Normalizer, ps: seq<Projection>, seen: set<Key>, h: string) {
    var xs := Sorted(norm, ps, Issues, h);
    forall k | 0 < k < |xs| :: SameIssueKey(ps, xs, k) in seen && FollowsKey(ps, xs, k) in seen
  }

  ghost predicate TopicsDone(norm: Normalizer, ps: seq<Projection>, seen: set<Key>, h: string) {
    var xs := Sorted(norm, ps, Topics, h);
    forall k | 0 < k < |xs| && !ShareRawIssue(ps[xs[k - 1]], ps[xs[k]]) :: RelatedKey(ps, xs, k) in seen
  }

  lemma ShortBucketDone(norm: Normalizer, ps: seq<Projection>, seen: set<Key>, h: string)
    ensures |Bucket(norm, ps, Issues, h, |ps|)| <= 1 ==> IssuesDone(norm, ps, seen, h)
    ensures |Bucket(norm, ps, Topics, h, |ps|)| <= 1 ==> TopicsDone(norm, ps, seen, h)
  {
  }

  method LinkAllIssues(norm: Normalizer, ps: seq<Projection>) returns (rows: seq<Row>, seen: set<Key>)
    ensures Emitted(norm, ps, rows, seen) && forall h :: IssuesDone(norm, ps, seen, h)
  {
    rows, seen := [], {};
    var keys, buckets := BucketByHint(norm, ps, Issues);
    for q := 0 to |keys|
      invariant Emitted(norm, ps, rows, seen)
      invariant forall h | h in keys[..q] :: IssuesDone(norm, ps, seen, h)
    {
      assert keys[..q + 1] == keys[..q] + [keys[q]];
      assert At(buckets, keys[q]) == Bucket(norm, ps, Issues, keys[q], |ps|);
      if |buckets[keys[q]]| > 1 {
        SortedIsChain(norm, ps, Issues, keys[q]);
        rows, seen := LinkIssueBucket(norm, ps, keys[q], SortByStart(ps, buckets[keys[q]]), rows, seen);
      } else {
        ShortBucketDone(norm, ps, seen, keys[q]);
      }
    }
    assert keys[..|keys|] == keys;
    forall h
      ensures IssuesDone(norm, ps, seen, h)
    {
      if h !in keys {
        assert At(buckets, h) == Bucket(norm, ps, Issues, h, |ps|);
        ShortBucketDone(norm, ps, seen, h);
      }
    }
  }

  method LinkAllTopics(norm: Normalizer, ps: seq<Projection>, rows0: seq<Row>, seen0: set<Key>)
    returns (rows: seq<Row>, seen: set<Key>)
    requires Emitted(norm, ps, rows0, seen0)
    ensures Emitted(norm, ps, rows, seen) && seen0 <= seen && forall h :: TopicsDone(norm, ps, seen, h)
  {
    rows, seen := rows0, seen0;
    var keys, buckets := BucketByHint(norm, ps, Topics);
    for q := 0 to |keys|
      invariant Emitted(norm, ps, rows, seen) && seen0 <= seen
      invariant forall h | h in keys[..q] :: TopicsDone(norm, ps, seen, h)
    {
      assert keys[..q + 1] == keys[..q] + [keys[q]];
      assert At(buckets, keys[q]) == Bucket(norm, ps, Topics, keys[q], |ps|);
      if |buckets[keys[q]]| > 1 {
        SortedIsChain(norm, ps, Topics, keys[q]);
        rows, seen := LinkTopicBucket(norm, ps, keys[q], SortByStart(ps, buckets[keys[q]]), rows, seen);
      } else {
        ShortBucketDone(norm, ps, seen, keys[q]);
      }
    }
    assert keys[..|keys|] == keys;
    forall h
      ensures TopicsDone(norm, ps, seen, h)
    {
      if h !in keys {
        assert At(buckets, h) == Bucket(norm, ps, Topics, h, |ps|);
        ShortBucketDone(norm, ps, seen, h);
      }
    }
  }

  /** The relations written by one rebuild, exactly: between consecutive carriers of an issue hint SAME_ISSUE
      from the earlier to the later and FOLLOWS_UP back, between consecutive carriers of a topic hint without a
      common raw issue hint RELATED_TO; each once, however many hints call for it. */
  method ProjectEpisodeRelations(norm: Normalizer, ps: seq<Projection>) returns (rows: seq<Row>, count: nat)
    requires UniqueIds(ps)
    ensures count == |rows| && Distinct(rows)
    ensures forall a: nat, b: nat :: Row(a, b, SameIssue) in rows <==> IssueLinked(norm, ps, a, b)
    ensures forall a: nat, b: nat :: Row(b, a, FollowsUp) in rows <==> IssueLinked(norm, ps, a, b)
    ensures forall a: nat, b: nat :: Row(a, b, RelatedTo) in rows <==> TopicLinked(norm, ps, a, b)
  {
    var seen;
    rows, seen := LinkAllIssues(norm, ps);
    ghost var before := seen;
    rows, seen := LinkAllTopics(norm, ps, rows, seen);
    forall h
      ensures IssuesDone(norm, ps, seen, h)
    {
      assert IssuesDone(norm, ps, before, h);
    }
    count := |rows|;
    EmittedExactly(norm, ps, rows, seen);
  }

  /** A row is recovered from its key, because ids are unique and every justified row has a fixed direction. */
  lemma RowOfKey(norm: Normalizer, ps: seq<Projection>, q: Row, r: Row)
    requires UniqueIds(ps) && InRange(ps, q) && InRange(ps, r)
    requires Justified(norm, ps, q) && Justified(norm, ps, r) && RelationKey(ps, q) == RelationKey(ps, r)
    ensures q == r
  {
    assert ps[q.left].id == ps[r.left].id ==> q.left == r.left;
    assert ps[q.right].id == ps[r.right].id ==> q.right == r.right;
    assert ps[q.left].id == ps[r.right].id ==> q.left == r.right;
    assert ps[q.right].id == ps[r.left].id ==> q.right == r.left;
    Directed(norm, ps, q);
    Directed(norm, ps, r);
  }

  lemma Directed(norm: Normalizer, ps: seq<Projection>, r: Row)
    requires InRange(ps, r) && Justified(norm, ps, r)
    ensures if r.relation.FollowsUp? then Earlier(ps, r.right, r.left) else Earlier(ps, r.left, r.right)
  {
  }

  lemma EmittedExactly(norm: Normalizer, ps: seq<Projection>, rows: seq<Row>, seen: set<Key>)
    requires UniqueIds(ps) && Emitted(norm, ps, rows, seen)
    requires forall h :: IssuesDone(norm, ps, seen, h)
    requires forall h :: TopicsDone(norm, ps, seen, h)
    ensures Distinct(rows)
    ensures forall a: nat, b: nat :: Row(a, b, SameIssue) in rows <==> IssueLinked(norm, ps, a, b)
    ensures forall a: nat, b: nat :: Row(b, a, FollowsUp) in rows <==> IssueLinked(norm, ps, a, b)
    ensures forall a: nat, b: nat :: Row(a, b, RelatedTo) in rows <==> TopicLinked(norm, ps, a, b)
  {
    forall a: nat, b: nat
      ensures Row(a, b, SameIssue) in rows <==> IssueLinked(norm, ps, a, b)
      ensures Row(b, a, FollowsUp) in rows <==> IssueLinked(norm, ps, a, b)
    {
      if Row(a, b, SameIssue) in rows { assert RowSound(norm, ps, seen, Row(a, b, SameIssue)); }
      if Row(b, a, FollowsUp) in rows { assert RowSound(norm, ps, seen, Row(b, a, FollowsUp)); }
      if IssueLinked(norm, ps, a, b) {
        var h :| Consecutive(norm, ps, Issues, h, a, b);
        var k := ConsecutiveSideBySide(norm, ps, Issues, h, a, b);
        assert IssuesDone(norm, ps, seen, h);
        var xs := Sorted(norm, ps, Issues, h);
        assert SameIssueKey(ps, xs, k) in seen && FollowsKey(ps, xs, k) in seen;
        RowPresent(norm, ps, rows, seen, Row(a, b, SameIssue));
        RowPresent(norm, ps, rows, seen, Row(b, a, FollowsUp));
      }
    }
    forall a: nat, b: nat
      ensures Row(a, b, RelatedTo) in rows <==> TopicLinked(norm, ps, a, b)
    {
      if Row(a, b, RelatedTo) in rows { assert RowSound(norm, ps, seen, Row(a, b, RelatedTo)); }
      if TopicLinked(norm, ps, a, b) {
        var h :| Consecutive(norm, ps, Topics, h, a, b);
        var k := ConsecutiveSideBySide(norm, ps, Topics, h, a, b);
        assert TopicsDone(norm, ps, seen, h);
        RowPresent(norm, ps, rows, seen, Row(a, b, RelatedTo));
      }
    }
  }

  lemma RowPresent(norm: Normalizer, ps: seq<Projection>, rows: seq<Row>, seen: set<Key>, r: Row)
    requires UniqueIds(ps) && Emitted(norm, ps, rows, seen) && InRange(ps, r) && Justified(norm, ps, r)
    requires RelationKey(ps, r) in seen
    ensures r in rows
  {
    assert HasRow(ps, rows, RelationKey(ps, r));
    var q :| q in rows && InRange(ps, q) && RelationKey(ps, q) == RelationKey(ps, r);
    assert RowSound(norm, ps, seen, q);
    RowOfKey(norm, ps, q, r);
  }

  /* ---------- what the chains stand for ---------- */

  /** A set of rows is what a rebuild wrote for its issue hints. */
  ghost predicate IssueRows(norm: Normalizer, ps: seq<Projection>, rows: set<Row>) {
    && (forall a: nat, b: nat :: Row(a, b, SameIssue) in rows <==> IssueLinked(norm, ps, a, b))
    && (forall a: nat, b: nat :: Row(b, a, FollowsUp) in rows <==> IssueLinked(norm, ps, a, b))
  }

  ghost predicate ShareIssue(norm: Normalizer, ps: seq<Projection>, a: nat, b: nat) {
    exists h :: Carries(norm, ps, Issues, h, a) && Carries(norm, ps, Issues, h, b)
  }

  predicate SameIssueEdge(rows: set<Row>, a: nat, b: nat) {
    Row(a, b, SameIssue) in rows || Row(b, a, SameIssue) in rows
  }

  predicate SameIssuePath(rows: set<Row>, path: seq<nat>) {
    path != [] && forall k | 0 < k < |path| :: SameIssueEdge(rows, path[k - 1], path[k])
  }

  /** Following FOLLOWS_UP edges from the later to the earlier episode. */
  predicate FollowsPath(rows: set<Row>, path: seq<nat>) {
    path != [] && forall k | 0 < k < |path| :: Row(path[k - 1], path[k], FollowsUp) in rows
  }

  ghost predicate SharePath(norm: Normalizer, ps: seq<Projection>, path: seq<nat>) {
    path != [] && forall k | 0 < k < |path| :: ShareIssue(norm, ps, path[k - 1], path[k])
  }

  predicate Joins(path: seq<nat>, a: nat, b: nat) {
    path != [] && path[0] == a && path[|path| - 1] == b
  }

  ghost function CarriersBefore(norm: Normalizer, ps: seq<Projection>, h: string, b: nat): set<nat>
    requires b < |ps|
  {
    set c: nat | c < |ps| && Carries(norm, ps, Issues, h, c) && Earlier(ps, c, b)
  }

  lemma {:induction false} LatestOf(ps: seq<Projection>, xs: set<nat>) returns (last: nat)
    requires xs != {} && forall x | x in xs :: x < |ps|
    ensures last in xs && forall x | x in xs :: x == last || Earlier(ps, x, last)
  {
    var x :| x in xs;
    if xs == {x} {
      last := x;
    } else {
      var rest := LatestOf(ps, xs - {x});
      last := if Earlier(ps, rest, x) then x else rest;
      assert forall y | y in xs :: y == x || y in xs - {x};
    }
  }

  /** From the later of two carriers of a hint the consecutive pairs lead down to the earlier one. */
  lemma {:induction false} Descend(norm: Normalizer, ps: seq<Projection>, rows: set<Row>, h: string, a: nat, b: nat)
    returns (path: seq<nat>)
    requires IssueRows(norm, ps, rows)
    requires Carries(norm, ps, Issues, h, a) && Carries(norm, ps, Issues, h, b) && Earlier(ps, a, b)
    ensures FollowsPath(rows, path) && SameIssuePath(rows, path) && Joins(path, b, a) && |path| > 1
    decreases CarriersBefore(norm, ps, h, b)
  {
    assert a in CarriersBefore(norm, ps, h, b);
    var c := LatestOf(ps, CarriersBefore(norm, ps, h, b));
    forall d: nat | Carries(norm, ps, Issues, h, d)
      ensures !(Earlier(ps, c, d) && Earlier(ps, d, b))
    {
      assert Earlier(ps, d, b) ==> d in CarriersBefore(norm, ps, h, b);
    }
    assert Consecutive(norm, ps, Issues, h, c, b);
    assert IssueLinked(norm, ps, c, b);
    if c == a {
      path := [b, a];
    } else {
      assert c !in CarriersBefore(norm, ps, h, c);
      var rest := Descend(norm, ps, rows, h, a, c);
      path := [b] + rest;
    }
  }

  /** However many hints overlap and however edges were deduplicated: from the later to the earlier of any two
      episodes that share an issue there is a FOLLOWS_UP path. */
  lemma FollowsUpReachesBack(norm: Normalizer, ps: seq<Projection>, rows: set<Row>, a: nat, b: nat)
    returns (path: seq<nat>)
    requires IssueRows(norm, ps, rows) && a < |ps| && b < |ps|
    requires ShareIssue(norm, ps, a, b) && Earlier(ps, a, b)
    ensures FollowsPath(rows, path) && Joins(path, b, a)
  {
    var h :| Carries(norm, ps, Issues, h, a) && Carries(norm, ps, Issues, h, b);
    path := Descend(norm, ps, rows, h, a, b);
  }

  /** FOLLOWS_UP is acyclic: along any path of at least one edge time runs strictly backwards. */
  lemma {:induction false} FollowsUpIsAcyclic(norm: Normalizer, ps: seq<Projection>, rows: set<Row>, path: seq<nat>)
    requires IssueRows(norm, ps, rows) && FollowsPath(rows, path) && |path| > 1
    ensures forall k | 0 <= k < |path| :: path[k] < |ps|
    ensures Earlier(ps, path[|path| - 1], path[0]) && path[|path| - 1] != path[0]
    decreases |path|
  {
    var last := |path| - 1;
    assert Row(path[last - 1], path[last], FollowsUp) in rows;
    assert IssueLinked(norm, ps, path[last], path[last - 1]);
    if last > 1 {
      FollowsUpIsAcyclic(norm, ps, rows, path[..last]);
    }
  }

  lemma {:induction false} Append(rows: set<Row>, p: seq<nat>, q: seq<nat>, a: nat, b: nat, c: nat) returns (path: seq<nat>)
    requires SameIssuePath(rows, p) && Joins(p, a, b) && SameIssuePath(rows, q) && Joins(q, b, c)
    ensures SameIssuePath(rows, path) && Joins(path, a, c)
  {
    path := p + q[1..];
    forall k | 0 < k < |path|
      ensures SameIssueEdge(rows, path[k - 1], path[k])
    {
      if k >= |p| {
        assert path[k] == q[k - |p| + 1] && path[k - 1] == q[k - |p|];
      }
    }
  }

  lemma {:induction false} Reverse(rows: set<Row>, p: seq<nat>, a: nat, b: nat) returns (path: seq<nat>)
    requires SameIssuePath(rows, p) && Joins(p, a, b)
    ensures SameIssuePath(rows, path) && Joins(path, b, a)
  {
    path := seq(|p|, k requires 0 <= k < |p| => p[|p| - 1 - k]);
    forall k | 0 < k < |path|
      ensures SameIssueEdge(rows, path[k - 1], path[k])
    {
      assert SameIssueEdge(rows, p[|p| - 1 - k], p[|p| - k]);
    }
  }

  /** Two episodes that share an issue are joined by SAME_ISSUE edges. */
  lemma SharersAreJoined(norm: Normalizer, ps: seq<Projection>, rows: set<Row>, a: nat, b: nat) returns (path: seq<nat>)
    requires IssueRows(norm, ps, rows) && a < |ps| && b < |ps| && ShareIssue(norm, ps, a, b)
    ensures SameIssuePath(rows, path) && Joins(path, a, b)
  {
    var h :| Carries(norm, ps, Issues, h, a) && Carries(norm, ps, Issues, h, b);
    if a == b {
      path := [a];
    } else if Earlier(ps, b, a) {
      path := Descend(norm, ps, rows, h, b, a);
    } else {
      var back := Descend(norm, ps, rows, h, a, b);
      path := Reverse(rows, back, b, a);
    }
  }

  lemma {:induction false} ShareToSame(norm: Normalizer, ps: seq<Projection>, rows: set<Row>, share: seq<nat>, a: nat, b: nat)
    returns (path: seq<nat>)
    requires IssueRows(norm, ps, rows) && SharePath(norm, ps, share) && Joins(share, a, b)
    ensures SameIssuePath(rows, path) && Joins(path, a, b)
    decreases |share|
  {
    var last := |share| - 1;
    if last == 0 {
      path := [a];
    } else {
      var front := ShareToSame(norm, ps, rows, share[..last], a, share[last - 1]);
      assert ShareIssue(norm, ps, share[last - 1], share[last]);
      var step := SharersAreJoined(norm, ps, rows, share[last - 1], b);
      path := Append(rows, front, step, a, share[last - 1], b);
    }
  }

  /** The sparse SAME_ISSUE chains have exactly the connected components of "these episodes share a normalised
      issue hint": the same episodes are joined by a path of one as by a path of the other. */
  lemma SameComponents(norm: Normalizer, ps: seq<Projection>, rows: set<Row>, a: nat, b: nat)
    requires IssueRows(norm, ps, rows)
    ensures (exists path :: SameIssuePath(rows, path) && Joins(path, a, b)) <==>
            (exists path :: SharePath(norm, ps, path) && Joins(path, a, b))
  {
    if path :| SameIssuePath(rows, path) && Joins(path, a, b) {
      forall k | 0 < k < |path|
        ensures ShareIssue(norm, ps, path[k - 1], path[k])
      {
        assert SameIssueEdge(rows, path[k - 1], path[k]);
        LinkedShare(norm, ps, path[k - 1], path[k]);
      }
      assert SharePath(norm, ps, path);
    }
    if share :| SharePath(norm, ps, share) && Joins(share, a, b) {
      var path := ShareToSame(norm, ps, rows, share, a, b);
    }
  }

  lemma LinkedShare(norm: Normalizer, ps: seq<Projection>, a: nat, b: nat)
    requires IssueLinked(norm, ps, a, b) || IssueLinked(norm, ps, b, a)
    ensures ShareIssue(norm, ps, a, b)
  {
    if IssueLinked(norm, ps, a, b) {
      var h :| Consecutive(norm, ps, Issues, h, a, b);
      assert Carries(norm, ps, Issues, h, a) && Carries(norm, ps, Issues, h, b);
    } else {
      var h :| Consecutive(norm, ps, Issues, h, b, a);
      assert Carries(norm, ps, Issues, h, a) && Carries(norm, ps, Issues, h, b);
    }
  }
}
