/** Merging validity intervals: sort, sweep, and report the last stretch together with whether there was a gap. */
module ValidityMerge {
  import opened Options

  /** An interval closed at both ends; without an end it never closes. */
  datatype Range = Range(from: int, to: Option<int>)

  datatype Merged = Merged(from: int, to: Option<int>, disjoint: bool)

  predicate Leq(a: Range, b: Range) {
    a.from < b.from || (a.from == b.from && (b.to.None? || (a.to.Some? && a.to.value <= b.to.value)))
  }

  /** An interval that ends before it begins; nothing in the source forbids one. */
  predicate Inverted(r: Range) {
    r.to.Some? && r.to.value < r.from
  }

  /* ---------- sorting ---------- */

  ghost predicate Sorted(rs: seq<Range>) {
    forall i, j :: 0 <= i < j < |rs| ==> Leq(rs[i], rs[j])
  }

  function Insert(r: Range, rs: seq<Range>): (s: seq<Range>)
    ensures |s| == |rs| + 1
  {
    if rs == [] then [r] else if Leq(r, rs[0]) then [r] + rs else [rs[0]] + Insert(r, rs[1..])
  }

  function SortRanges(rs: seq<Range>): (s: seq<Range>)
    ensures |s| == |rs|
  {
    if rs == [] then [] else Insert(rs[0], SortRanges(rs[1..]))
  }

  lemma {:induction false} InsertAdds(r: Range, rs: seq<Range>)
    ensures multiset(Insert(r, rs)) == multiset(rs) + multiset{r}
  {
    if rs == [] || Leq(r, rs[0]) {
    } else {
      InsertAdds(r, rs[1..]);
      assert rs == [rs[0]] + rs[1..];
    }
  }

  lemma HeadIsLeast(r: Range, rs: seq<Range>)
    requires Sorted(rs) && forall q :: q in rs ==> Leq(r, q)
    ensures Sorted([r] + rs)
  {
  }

  lemma {:induction false} InsertSorts(r: Range, rs: seq<Range>)
    requires Sorted(rs)
    ensures Sorted(Insert(r, rs))
  {
    if rs == [] || Leq(r, rs[0]) {
    } else {
      InsertSorts(r, rs[1..]);
      InsertAdds(r, rs[1..]);
      forall q | q in Insert(r, rs[1..]) ensures Leq(rs[0], q) {
        assert q in multiset(Insert(r, rs[1..]));
      }
      HeadIsLeast(rs[0], Insert(r, rs[1..]));
    }
  }

  lemma {:induction false} SortSorts(rs: seq<Range>)
    ensures Sorted(SortRanges(rs)) && multiset(SortRanges(rs)) == multiset(rs)
  {
    if rs == [] {
    } else {
      SortSorts(rs[1..]);
      InsertAdds(rs[0], SortRanges(rs[1..]));
      InsertSorts(rs[0], SortRanges(rs[1..]));
      assert rs == [rs[0]] + rs[1..];
    }
  }

  lemma LeastFirst(a: seq<Range>, r: Range)
    requires Sorted(a) && r in a
    ensures Leq(a[0], r)
  {
  }

  lemma Tail(a: seq<Range>)
    requires a != []
    ensures multiset(a[1..]) == multiset(a) - multiset{a[0]}
  {
    assert a == [a[0]] + a[1..];
  }

  lemma {:induction false} SortedIsUnique(a: seq<Range>, b: seq<Range>)
    requires Sorted(a) && Sorted(b) && multiset(a) == multiset(b)
    ensures a == b
  {
    assert |a| == |multiset(a)| == |multiset(b)| == |b|;
    if a == [] {
    } else {
      assert a[0] in multiset(b) && b[0] in multiset(a);
      LeastFirst(b, a[0]);
      LeastFirst(a, b[0]);
      Tail(a);
      Tail(b);
      SortedIsUnique(a[1..], b[1..]);
      assert a == [a[0]] + a[1..] && b == [b[0]] + b[1..];
    }
  }

  /* ---------- sweeping ---------- */

  function Start(r: Range): Merged {
    Merged(r.from, r.to, false)
  }

  function Extended(m: Merged, r: Range): Merged {
    if m.to.Some? && r.from > m.to.value then Merged(r.from, r.to, true)
    else Merged(m.from,
                if m.to.None? || r.to.None? then None
                else if m.to.value > r.to.value then m.to else r.to,
                m.disjoint)
  }

  function Sweep(rs: seq<Range>): Merged
    requires rs != []
  {
    if |rs| == 1 then Start(rs[0]) else Extended(Sweep(rs[..|rs| - 1]), rs[|rs| - 1])
  }

  function Merge(rs: seq<Range>): Merged
    requires rs != []
  {
    Sweep(SortRanges(rs))
  }

  /** The source throws on an empty list. */
  method MergeMemoryValidityIntervals(intervals: seq<Range>) returns (r: Option<Merged>)
    ensures r == if intervals == [] then None else Some(Merge(intervals))
  {
    var ranges := SortRanges(intervals);
    if ranges == [] {
      return None;
    }
    var components: seq<Range> := [];
    for k := 0 to |ranges|
      invariant k == 0 ==> components == []
      invariant k > 0 ==>
        && components != []
        && Sweep(ranges[..k]) == Merged(components[|components| - 1].from, components[|components| - 1].to, |components| > 1)
    {
      var range := ranges[k];
      assert ranges[..k + 1][..k] == ranges[..k];
      if components == [] {
        components := [range];
      } else {
        var current := components[|components| - 1];
        if current.to.Some? && range.from > current.to.value {
          components := components + [range];
        } else {
          var end := if current.to.None? || range.to.None? then None
                     else if current.to.value > range.to.value then current.to else range.to;
          components := components[|components| - 1 := Range(current.from, end)];
        }
      }
    }
    assert ranges[..|ranges|] == ranges;
    var last := components[|components| - 1];
    r := Some(Merged(last.from, last.to, |components| > 1));
  }

  lemma MergeIgnoresOrder(a: seq<Range>, b: seq<Range>)
    requires multiset(a) == multiset(b) && a != []
    ensures b != [] && Merge(a) == Merge(b)
  {
    assert a[0] in multiset(b);
    SortSorts(a);
    SortSorts(b);
    SortedIsUnique(SortRanges(a), SortRanges(b));
  }

  /* ---------- what the merge means ---------- */

  ghost function Elements(rs: seq<Range>): set<Range> {
    set r | r in rs
  }

  /** Some interval begins here. */
  ghost predicate Begins(s: set<Range>, x: int) {
    exists r :: r in s && r.from == x
  }

  ghost predicate Quiet(s: set<Range>, x: int) {
    forall r :: r in s && r.from < x ==> r.to.Some? && r.to.value < x
  }

  /** A point where an interval begins after all earlier ones are over. */
  ghost predicate Opens(s: set<Range>, x: int) {
    Begins(s, x) && Quiet(s, x)
  }

  ghost predicate LastOpening(s: set<Range>, x: int) {
    Opens(s, x) && forall y :: Opens(s, y) ==> y <= x
  }

  ghost predicate HasOther(s: set<Range>, x: int) {
    exists y :: Opens(s, y) && y != x
  }

  /** The end of the intervals that begin at `x` or later. */
  ghost predicate EndsSince(s: set<Range>, x: int, end: Option<int>) {
    && (exists r :: r in s && r.from >= x && r.to == end)
    && forall r :: r in s && r.from >= x ==> end.None? || (r.to.Some? && r.to.value <= end.value)
  }

  /** An inverted interval begins as early as any. */
  ghost predicate StartsInverted(s: set<Range>) {
    exists r :: r in s && Inverted(r) && forall q :: q in s ==> r.from <= q.from
  }

  /** `m` begins at the last opening and ends where the intervals since then end.  It is disjoint when there is another
      opening, or when an inverted interval is followed by anything at all. */
  ghost predicate Covers(rs: seq<Range>, m: Merged) {
    && LastOpening(Elements(rs), m.from)
    && EndsSince(Elements(rs), m.from, m.to)
    && (m.disjoint <==> HasOther(Elements(rs), m.from) || (|rs| > 1 && StartsInverted(Elements(rs))))
  }

  lemma EndOnce(s: set<Range>, x: int, a: Option<int>, b: Option<int>)
    requires EndsSince(s, x, a) && EndsSince(s, x, b)
    ensures a == b
  {
    var r :| r in s && r.from >= x && r.to == a;
    var q :| q in s && q.from >= x && q.to == b;
  }

  /** Adding the last interval in order changes no earlier opening. */
  lemma OpensBefore(s: set<Range>, r: Range, x: int)
    requires forall q :: q in s ==> Leq(q, r)
    ensures Begins(s, x) ==> (Opens(s + {r}, x) <==> Opens(s, x))
    ensures !Begins(s, x) ==> (Opens(s + {r}, x) <==> x == r.from && Quiet(s, x))
  {
    assert Begins(s + {r}, x) <==> Begins(s, x) || x == r.from by {
      assert r in s + {r};
    }
    assert x <= r.from ==> (Quiet(s + {r}, x) <==> Quiet(s, x));
  }

  lemma FirstOpens(rs: seq<Range>)
    requires rs != [] && Sorted(rs)
    ensures Opens(Elements(rs), rs[0].from)
  {
    forall q | q in Elements(rs) ensures rs[0].from <= q.from {
      LeastFirst(rs, q);
    }
    assert rs[0] in Elements(rs);
  }

  lemma LastIsGreatest(rs: seq<Range>, q: Range)
    requires rs != [] && Sorted(rs) && q in rs[..|rs| - 1]
    ensures q in rs && Leq(q, rs[|rs| - 1])
  {
    var i :| 0 <= i < |rs| - 1 && rs[i] == q;
  }

  lemma ElementsOneMore(rs: seq<Range>)
    requires rs != []
    ensures Elements(rs) == Elements(rs[..|rs| - 1]) + {rs[|rs| - 1]}
  {
    assert rs == rs[..|rs| - 1] + [rs[|rs| - 1]];
  }

  /** After the end of the last stretch nothing is still going on. */
  lemma NewStretchOpens(s: set<Range>, m: Merged, r: Range)
    requires LastOpening(s, m.from) && EndsSince(s, m.from, m.to) && forall q :: q in s ==> Leq(q, r)
    requires m.to.Some? && m.to.value < r.from
    ensures LastOpening(s + {r}, r.from) && EndsSince(s + {r}, r.from, r.to)
  {
    assert r in s + {r};
    OpensBefore(s, r, r.from);
    forall x | Opens(s + {r}, x) ensures x <= r.from {
      var q :| q in s + {r} && q.from == x;
    }
  }

  lemma SameStretchGoesOn(s: set<Range>, m: Merged, r: Range)
    requires LastOpening(s, m.from) && EndsSince(s, m.from, m.to) && forall q :: q in s ==> Leq(q, r)
    requires m.to.None? || r.from <= m.to.value
    ensures LastOpening(s + {r}, m.from) && EndsSince(s + {r}, m.from, Extended(m, r).to)
    ensures HasOther(s + {r}, m.from) <==> HasOther(s, m.from)
  {
    var q :| q in s && q.from >= m.from && q.to == m.to;
    var first :| first in s && first.from == m.from;
    assert q in s + {r} && r in s + {r} && r.from >= m.from;
    forall x ensures Opens(s + {r}, x) <==> Opens(s, x) {
      OpensBefore(s, r, x);
    }
  }

  /** A stretch that is over before its own start consists of inverted intervals. */
  lemma GapHasCause(rs: seq<Range>, m: Merged, r: Range)
    requires rs != [] && Sorted(rs) && LastOpening(Elements(rs), m.from) && EndsSince(Elements(rs), m.from, m.to)
    requires (forall q :: q in rs ==> Leq(q, r)) && m.to.Some? && m.to.value < r.from
    ensures HasOther(Elements(rs) + {r}, r.from) || StartsInverted(Elements(rs) + {r})
  {
    var s := Elements(rs);
    FirstOpens(rs);
    assert rs[0] in s && Leq(rs[0], r);
    OpensBefore(s, r, rs[0].from);
    if rs[0].from == r.from {
      assert m.from == r.from by {
        var q :| q in s && q.from == m.from;
        LeastFirst(rs, q);
      }
      assert Inverted(rs[0]);
      forall q | q in s + {r} ensures rs[0].from <= q.from {
        if q in s {
          LeastFirst(rs, q);
        }
      }
      assert rs[0] in s + {r};
    }
  }

  /** What is said first keeps being said first. */
  lemma StartsInvertedEarly(rs: seq<Range>, r: Range)
    requires rs != [] && forall q :: q in rs ==> Leq(q, r)
    ensures StartsInverted(Elements(rs) + {r}) <==> StartsInverted(Elements(rs))
  {
    var s := Elements(rs);
    assert rs[0] in s && Leq(rs[0], r);
    if StartsInverted(s + {r}) {
      var q :| q in s + {r} && Inverted(q) && forall p :: p in s + {r} ==> q.from <= p.from;
      assert rs[0] in s + {r};
      var early := if q in s then q else rs[0];
      assert early in s && Inverted(early) && forall p :: p in s ==> p in s + {r};
    }
    if StartsInverted(s) {
      var q :| q in s && Inverted(q) && forall p :: p in s ==> q.from <= p.from;
      assert q in s + {r} && Leq(q, r);
    }
  }

  lemma ExtendedCovers(rs: seq<Range>, m: Merged, r: Range)
    requires rs != [] && Sorted(rs) && Covers(rs, m) && forall q :: q in rs ==> Leq(q, r)
    requires Elements(rs + [r]) == Elements(rs) + {r}
    ensures Covers(rs + [r], Extended(m, r))
  {
    StartsInvertedEarly(rs, r);
    if m.to.Some? && m.to.value < r.from {
      NewStretchOpens(Elements(rs), m, r);
      GapHasCause(rs, m, r);
    } else {
      SameStretchGoesOn(Elements(rs), m, r);
      if |rs| == 1 {
        AloneIsNotInverted(rs[0], m, r);
        assert Elements(rs) == {rs[0]};
      }
    }
  }

  lemma AloneIsNotInverted(q: Range, m: Merged, r: Range)
    requires LastOpening({q}, m.from) && EndsSince({q}, m.from, m.to) && Leq(q, r)
    requires m.to.None? || r.from <= m.to.value
    ensures !StartsInverted({q})
  {
  }

  lemma OneCovers(r: Range)
    ensures Covers([r], Start(r))
  {
    assert Elements([r]) == {r};
    assert r in {r};
    assert Opens({r}, r.from);
  }

  lemma {:induction false} SweepCovers(rs: seq<Range>)
    requires rs != [] && Sorted(rs)
    ensures Covers(rs, Sweep(rs))
  {
    var last := |rs| - 1;
    if last == 0 {
      assert rs == [rs[0]];
      OneCovers(rs[0]);
    } else {
      SweepCovers(rs[..last]);
      ElementsOneMore(rs);
      assert rs == rs[..last] + [rs[last]];
      forall q | q in rs[..last] ensures Leq(q, rs[last]) {
        LastIsGreatest(rs, q);
      }
      ExtendedCovers(rs[..last], Sweep(rs[..last]), rs[last]);
    }
  }

  /** What a merge is, whatever the intervals. */
  lemma MergeCovers(rs: seq<Range>)
    requires rs != []
    ensures Covers(rs, Merge(rs))
  {
    SortSorts(rs);
    forall r ensures r in SortRanges(rs) <==> r in rs {
      assert r in SortRanges(rs) <==> r in multiset(SortRanges(rs));
    }
    assert Elements(SortRanges(rs)) == Elements(rs);
    SweepCovers(SortRanges(rs));
  }

  /** Intervals that end after they begin merge to one that ends when they all have. */
  lemma ProperEnd(rs: seq<Range>, r: Range)
    requires r in rs && forall q :: q in rs ==> !Inverted(q)
    ensures Merge(rs).to.None? || (r.to.Some? && r.to.value <= Merge(rs).to.value)
  {
    MergeCovers(rs);
    var m := Merge(rs);
    assert r in Elements(rs);
    var last :| last in Elements(rs) && last.from >= m.from && last.to == m.to;
    assert !Inverted(last);
  }

  /** Neither order nor repetition matters to them. */
  lemma MergeIgnoresRepeats(a: seq<Range>, b: seq<Range>)
    requires a != [] && b != [] && Elements(a) == Elements(b)
    requires forall r :: r in a ==> !Inverted(r)
    ensures Merge(a) == Merge(b)
  {
    forall r | r in Elements(a) ensures !Inverted(r) {
      assert r in a;
    }
    MergeCovers(a);
    MergeCovers(b);
    EndOnce(Elements(a), Merge(a).from, Merge(a).to, Merge(b).to);
  }

  /* ---------- repeated inverted intervals ---------- */

  function SweepOn(m: Merged, rs: seq<Range>): Merged {
    if rs == [] then m else Extended(SweepOn(m, rs[..|rs| - 1]), rs[|rs| - 1])
  }

  lemma {:induction false} SweepSplits(a: seq<Range>, b: seq<Range>)
    requires a != []
    ensures Sweep(a + b) == SweepOn(Sweep(a), b)
  {
    if b == [] {
      assert a + b == a;
    } else {
      SweepSplits(a, b[..|b| - 1]);
      assert (a + b)[..|a + b| - 1] == a + b[..|b| - 1];
    }
  }

  lemma {:induction false} GapsStay(m: Merged, rs: seq<Range>)
    ensures SweepOn(m.(disjoint := true), rs) == SweepOn(m, rs).(disjoint := true)
    ensures m.disjoint ==> SweepOn(m, rs).disjoint
  {
    if rs == [] {
    } else {
      GapsStay(m, rs[..|rs| - 1]);
    }
  }

  /** Sweeping the same interval a second time in a row. */
  lemma SecondSweep(head: seq<Range>, r: Range)
    ensures var m := Sweep(head + [r]);
            Sweep(head + [r] + [r]) == if head == [] && Inverted(r) then m.(disjoint := true) else m
  {
    assert (head + [r] + [r])[..|head| + 1] == head + [r];
    if head != [] {
      assert (head + [r])[..|head|] == head;
    }
  }

  lemma SweepDoubled(head: seq<Range>, r: Range, tail: seq<Range>)
    ensures var m := Sweep(head + [r] + tail);
            Sweep(head + [r] + [r] + tail) == if head == [] && Inverted(r) then m.(disjoint := true) else m
  {
    SweepSplits(head + [r], tail);
    SweepSplits(head + [r] + [r], tail);
    SecondSweep(head, r);
    GapsStay(Sweep(head + [r]), tail);
  }

  lemma DoubledIsSorted(rs: seq<Range>, k: nat)
    requires Sorted(rs) && k < |rs|
    ensures Sorted(rs[..k + 1] + rs[k..])
    ensures multiset(rs[..k + 1] + rs[k..]) == multiset(rs) + multiset{rs[k]}
  {
    assert rs == rs[..k] + rs[k..];
    assert rs[..k + 1] == rs[..k] + [rs[k]];
  }

  lemma RepeatIsDoubling(rs: seq<Range>, k: nat)
    requires k < |rs|
    ensures var s := SortRanges(rs);
            SortRanges(rs + [s[k]]) == s[..k + 1] + s[k..]
  {
    var s := SortRanges(rs);
    SortSorts(rs);
    SortSorts(rs + [s[k]]);
    DoubledIsSorted(s, k);
    SortedIsUnique(SortRanges(rs + [s[k]]), s[..k + 1] + s[k..]);
  }

  lemma Halves(s: seq<Range>, k: nat)
    requires k < |s|
    ensures s[..k] + [s[k]] + s[k + 1..] == s
    ensures s[..k] + [s[k]] + [s[k]] + s[k + 1..] == s[..k + 1] + s[k..]
  {
    assert s[..k + 1] == s[..k] + [s[k]] && s[k..] == [s[k]] + s[k + 1..];
  }

  lemma SortedDoubled(s: seq<Range>, k: nat)
    requires k < |s|
    ensures Sweep(s[..k + 1] + s[k..]) == if k == 0 && Inverted(s[k]) then Sweep(s).(disjoint := true) else Sweep(s)
  {
    Halves(s, k);
    SweepDoubled(s[..k], s[k], s[k + 1..]);
  }

  lemma RepeatAt(rs: seq<Range>, k: nat)
    requires k < |rs|
    ensures var s := SortRanges(rs);
            Merge(rs + [s[k]]) == if k == 0 && Inverted(s[k]) then Merge(rs).(disjoint := true) else Merge(rs)
  {
    RepeatIsDoubling(rs, k);
    SortedDoubled(SortRanges(rs), k);
  }

  lemma SortedElements(rs: seq<Range>, r: Range)
    ensures r in SortRanges(rs) <==> r in rs
  {
    SortSorts(rs);
    assert r in SortRanges(rs) <==> r in multiset(SortRanges(rs));
  }

  predicate Least(rs: seq<Range>, r: Range) {
    r in rs && forall q :: q in rs ==> Leq(r, q)
  }

  lemma LeastIsFirst(rs: seq<Range>, r: Range)
    requires r in rs
    ensures Least(rs, r) <==> SortRanges(rs)[0] == r
  {
    var s := SortRanges(rs);
    SortSorts(rs);
    SortedElements(rs, s[0]);
    SortedElements(rs, r);
    LeastFirst(s, r);
    forall q | q in rs && s[0] == r ensures Leq(r, q) {
      SortedElements(rs, q);
      LeastFirst(s, q);
    }
  }

  lemma MergeRepeat(rs: seq<Range>, r: Range)
    requires r in rs
    ensures Merge(rs + [r]) == if Inverted(r) && Least(rs, r) then Merge(rs).(disjoint := true) else Merge(rs)
  {
    LeastIsFirst(rs, r);
    SortedElements(rs, r);
    var s := SortRanges(rs);
    if s[0] == r {
      RepeatAt(rs, 0);
    } else {
      var k :| 0 <= k < |s| && s[k] == r;
      RepeatAt(rs, k);
    }
  }

  /** Repeating an interval changes the merge exactly when it is inverted, comes first, and there was no gap yet: the
      copy then reports one. */
  lemma RepeatChangesMerge(rs: seq<Range>, r: Range)
    requires r in rs
    ensures Merge(rs + [r]) != Merge(rs) <==> Inverted(r) && Least(rs, r) && !Merge(rs).disjoint
  {
    MergeRepeat(rs, r);
  }

  /** An interval from 5 to 3, said twice: the merge of the two reports a gap, that of the one does not. */
  lemma InvertedTwiceHasGap()
    ensures var r := Range(5, Some(3)); Merge([r, r]) != Merge([r])
  {
    var r := Range(5, Some(3));
    assert r in [r] && [r] + [r] == [r, r];
    assert Merge([r]) == Start(r);
    RepeatChangesMerge([r], r);
  }

  /* ---------- any number of repeats ---------- */

  /** Each interval once, at its first place. */
  function Once(rs: seq<Range>): seq<Range> {
    if rs == [] then []
    else
      var before, last := Once(rs[..|rs| - 1]), rs[|rs| - 1];
      if last in before then before else before + [last]
  }

  ghost predicate NoRepeats(rs: seq<Range>) {
    forall i, j :: 0 <= i < j < |rs| ==> rs[i] != rs[j]
  }

  /** The first interval in order is inverted and said more than once. */
  ghost predicate DoublesFirst(rs: seq<Range>) {
    exists r :: Least(rs, r) && Inverted(r) && multiset(rs)[r] >= 2
  }

  lemma {:induction false} OnceHasNoRepeats(rs: seq<Range>)
    ensures NoRepeats(Once(rs)) && Elements(Once(rs)) == Elements(rs)
  {
    if rs == [] {
    } else {
      var init, last := rs[..|rs| - 1], rs[|rs| - 1];
      OnceHasNoRepeats(init);
      assert rs == init + [last];
      assert last in Once(init) <==> last in Elements(Once(init));
      assert Elements(rs) == Elements(init) + {last};
      assert Elements(Once(init) + [last]) == Elements(Once(init)) + {last};
    }
  }

  lemma {:induction false} NoRepeatsCount(rs: seq<Range>, r: Range)
    requires NoRepeats(rs)
    ensures multiset(rs)[r] == if r in Elements(rs) then 1 else 0
  {
    if rs == [] {
    } else {
      var init, last := rs[..|rs| - 1], rs[|rs| - 1];
      assert rs == init + [last];
      NoRepeatsCount(init, r);
      assert Elements(rs) == Elements(init) + {last};
      assert last !in init;
    }
  }

  /** Lists of the same intervals, each once, merge alike. */
  lemma SameOnce(a: seq<Range>, b: seq<Range>)
    requires NoRepeats(a) && NoRepeats(b) && Elements(a) == Elements(b) && a != []
    ensures b != [] && Merge(a) == Merge(b)
  {
    forall r ensures multiset(a)[r] == multiset(b)[r] {
      NoRepeatsCount(a, r);
      NoRepeatsCount(b, r);
    }
    MergeIgnoresOrder(a, b);
  }

  lemma TakeOutRepeat(rs: seq<Range>, j: nat, k: nat) returns (rest: seq<Range>)
    requires j < k < |rs| && rs[j] == rs[k]
    ensures |rest| == |rs| - 1 && rs[k] in rest && Elements(rest) == Elements(rs)
    ensures multiset(rs) == multiset(rest + [rs[k]]) == multiset(rest) + multiset{rs[k]}
  {
    rest := rs[..k] + rs[k + 1..];
    assert rs == rs[..k] + [rs[k]] + rs[k + 1..];
    assert rest[j] == rs[j];
    forall r ensures r in Elements(rest) <==> r in Elements(rs) {
      assert r in rs <==> r in rs[..k] || r == rs[k] || r in rs[k + 1..];
    }
  }

  lemma RepeatDoubles(rs: seq<Range>, rest: seq<Range>, x: Range)
    requires x in rest && Elements(rest) == Elements(rs) && multiset(rs) == multiset(rest) + multiset{x}
    ensures DoublesFirst(rs) <==> DoublesFirst(rest) || (Inverted(x) && Least(rest, x))
  {
    forall r ensures Least(rs, r) == Least(rest, r) {
      forall q ensures q in rs <==> q in rest {
        assert q in rs <==> q in Elements(rs);
        assert q in rest <==> q in Elements(rest);
      }
    }
    assert multiset(rest)[x] >= 1;
    if DoublesFirst(rs) {
      var r :| Least(rs, r) && Inverted(r) && multiset(rs)[r] >= 2;
      assert Least(rest, r);
      assert r != x ==> multiset(rest)[r] >= 2;
    }
    if DoublesFirst(rest) {
      var r :| Least(rest, r) && Inverted(r) && multiset(rest)[r] >= 2;
      assert Least(rs, r) && multiset(rs)[r] >= 2;
    }
    if Inverted(x) && Least(rest, x) {
      assert Least(rs, x) && multiset(rs)[x] >= 2;
    }
  }

  /** The merge of a list is that of its intervals taken once each, with a gap added exactly when the first of them is
      inverted and repeated. */
  lemma {:induction false} MergeOfRepeats(rs: seq<Range>)
    requires rs != []
    ensures Once(rs) != []
    ensures Merge(rs) == if DoublesFirst(rs) then Merge(Once(rs)).(disjoint := true) else Merge(Once(rs))
    decreases |rs|
  {
    OnceHasNoRepeats(rs);
    assert rs[0] in Elements(rs);
    if NoRepeats(rs) {
      SameOnce(rs, Once(rs));
      forall r ensures multiset(rs)[r] < 2 {
        NoRepeatsCount(rs, r);
      }
    } else {
      var j, k :| 0 <= j < k < |rs| && rs[j] == rs[k];
      var rest := TakeOutRepeat(rs, j, k);
      MergeOfRepeats(rest);
      OnceHasNoRepeats(rest);
      SameOnce(Once(rest), Once(rs));
      MergeIgnoresOrder(rs, rest + [rs[k]]);
      MergeRepeat(rest, rs[k]);
      RepeatDoubles(rs, rest, rs[k]);
    }
  }

  /** Two lists of the same intervals merge alike exactly when both repeat an inverted first interval or neither does, or
      there is a gap anyway. */
  lemma MergesAgreeIff(a: seq<Range>, b: seq<Range>)
    requires a != [] && b != [] && Elements(a) == Elements(b)
    ensures Once(a) != []
    ensures Merge(a) == Merge(b) <==> (DoublesFirst(a) <==> DoublesFirst(b)) || Merge(Once(a)).disjoint
    ensures Merge(a) == Merge(b).(disjoint := Merge(a).disjoint)
  {
    MergeOfRepeats(a);
    MergeOfRepeats(b);
    OnceHasNoRepeats(a);
    OnceHasNoRepeats(b);
    SameOnce(Once(a), Once(b));
  }
}
