/** Maximal runs in a row of marks, found in one pass. */
module LineRuns {
  /** The positions from `s` up to but excluding `e`. */
  datatype Span = Span(s: nat, e: nat)

  predicate Holds(p: Span, i: nat) {
    p.s <= i < p.e
  }

  /** A run of marked positions that cannot be made longer. */
  ghost predicate MaximalRun(marks: seq<bool>, p: Span) {
    && p.s < p.e <= |marks|
    && (forall i :: p.s <= i < p.e ==> marks[i])
    && (p.s == 0 || !marks[p.s - 1])
    && (p.e == |marks| || !marks[p.e])
  }

  ghost predicate Apart(runs: seq<Span>) {
    forall j, k :: 0 <= j < k < |runs| ==> runs[j].e < runs[k].s
  }

  ghost predicate Covered(runs: seq<Span>, i: nat) {
    exists k :: 0 <= k < |runs| && Holds(runs[k], i)
  }

  ghost predicate CoveredUpTo(marks: seq<bool>, runs: seq<Span>, n: nat) {
    forall i: nat {:trigger Covered(runs, i)} :: i < n && i < |marks| && marks[i] ==> Covered(runs, i)
  }

  ghost predicate AllMaximal(marks: seq<bool>, runs: seq<Span>) {
    forall k :: 0 <= k < |runs| ==> MaximalRun(marks, runs[k])
  }

  /** All the maximal runs, in order. */
  ghost predicate AreRuns(marks: seq<bool>, runs: seq<Span>) {
    AllMaximal(marks, runs) && Apart(runs) && CoveredUpTo(marks, runs, |marks|)
  }

  /** Before position `n`: the runs that have ended, and the run still open from `s`. */
  ghost predicate Halfway(marks: seq<bool>, runs: seq<Span>, s: nat, n: nat) {
    && s <= n <= |marks|
    && AllMaximal(marks, runs) && Apart(runs) && CoveredUpTo(marks, runs, s)
    && (runs != [] ==> runs[|runs| - 1].e < s)
    && (forall i :: s <= i < n ==> marks[i])
    && (s == 0 || !marks[s - 1])
  }

  function Closed(runs: seq<Span>, s: nat, n: nat): seq<Span> {
    if s < n then runs + [Span(s, n)] else runs
  }

  lemma RunEnds(marks: seq<bool>, runs: seq<Span>, s: nat, n: nat)
    requires Halfway(marks, runs, s, n) && (n == |marks| || !marks[n])
    ensures var more := Closed(runs, s, n);
            && AllMaximal(marks, more) && Apart(more) && CoveredUpTo(marks, more, n)
            && (more != [] ==> more[|more| - 1].e <= n)
  {
    var more := Closed(runs, s, n);
    if s < n {
      assert MaximalRun(marks, Span(s, n));
      forall i: nat | i < n && marks[i] ensures Covered(more, i) {
        if i < s {
          assert Covered(runs, i);
          var k :| 0 <= k < |runs| && Holds(runs[k], i);
          assert Holds(more[k], i);
        } else {
          assert Holds(more[|runs|], i);
        }
      }
    }
  }

  lemma Unmarked(marks: seq<bool>, runs: seq<Span>, s: nat, n: nat)
    requires Halfway(marks, runs, s, n) && n < |marks| && !marks[n]
    ensures Halfway(marks, Closed(runs, s, n), n + 1, n + 1)
  {
    RunEnds(marks, runs, s, n);
    var more := Closed(runs, s, n);
    forall i: nat | i < n + 1 && marks[i] ensures Covered(more, i) {
      assert i < n;
    }
  }

  lemma Marked(marks: seq<bool>, runs: seq<Span>, s: nat, n: nat)
    requires Halfway(marks, runs, s, n) && n < |marks| && marks[n]
    ensures Halfway(marks, runs, s, n + 1)
  {
  }

  lemma AllEnded(marks: seq<bool>, runs: seq<Span>, s: nat)
    requires Halfway(marks, runs, s, |marks|)
    ensures AreRuns(marks, Closed(runs, s, |marks|))
  {
    RunEnds(marks, runs, s, |marks|);
  }

  /** No runs means no marks. */
  lemma NoRuns(marks: seq<bool>, runs: seq<Span>)
    requires AreRuns(marks, runs)
    ensures runs == [] <==> forall i :: 0 <= i < |marks| ==> !marks[i]
  {
    if runs != [] {
      assert MaximalRun(marks, runs[0]);
      assert marks[runs[0].s];
    } else {
      forall i: nat | i < |marks| ensures !marks[i] {
        assert !Covered(runs, i);
      }
    }
  }
}
