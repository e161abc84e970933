/** A step applied along a list, and when applying it again changes nothing. */
module Folds {
  function Fold<S, R>(step: (S, R) -> S, s: S, rs: seq<R>, n: nat): S
    requires n <= |rs|
  {
    if n == 0 then s else step(Fold(step, s, rs, n - 1), rs[n - 1])
  }

  /** A step leaves its own element done. */
  ghost predicate Finishes<S(!new), R(!new)>(step: (S, R) -> S, done: (S, R) -> bool, rs: seq<R>) {
    forall s, r {:trigger step(s, r)} :: r in rs ==> done(step(s, r), r)
  }

  /** No step undoes the element. */
  ghost predicate Keeps<S(!new), R(!new)>(step: (S, R) -> S, done: (S, R) -> bool, rs: seq<R>, q: R) {
    forall s, r {:trigger step(s, r)} :: r in rs && done(s, q) ==> done(step(s, r), q)
  }

  /** A step for an element that is done changes nothing; any other makes the state larger. */
  ghost predicate WritesUnlessDone<S(!new), R(!new)>(step: (S, R) -> S, done: (S, R) -> bool, size: S -> nat) {
    forall s, r {:trigger step(s, r)} :: if done(s, r) then step(s, r) == s else size(step(s, r)) > size(s)
  }

  lemma {:induction false} FoldFinishes<S(!new), R(!new)>(step: (S, R) -> S, done: (S, R) -> bool, s: S, rs: seq<R>, n: nat, k: nat)
    requires k < n <= |rs| && Finishes(step, done, rs) && Keeps(step, done, rs, rs[k])
    ensures done(Fold(step, s, rs, n), rs[k])
  {
    var before := Fold(step, s, rs, n - 1);
    assert step(before, rs[n - 1]) == Fold(step, s, rs, n);
    if k < n - 1 {
      FoldFinishes(step, done, s, rs, n - 1, k);
    }
  }

  lemma {:induction false} FoldGrows<S(!new), R(!new)>(step: (S, R) -> S, done: (S, R) -> bool, size: S -> nat, s: S, rs: seq<R>, n: nat)
    requires n <= |rs| && WritesUnlessDone(step, done, size)
    ensures size(Fold(step, s, rs, n)) >= size(s)
  {
    if n == 0 {
    } else {
      FoldGrows(step, done, size, s, rs, n - 1);
      assert step(Fold(step, s, rs, n - 1), rs[n - 1]) == Fold(step, s, rs, n);
    }
  }

  /** A fold changes nothing exactly when every element is done at the start. */
  lemma {:induction false} FoldRestsIff<S(!new), R(!new)>(step: (S, R) -> S, done: (S, R) -> bool, size: S -> nat, s: S, rs: seq<R>, n: nat)
    requires n <= |rs| && WritesUnlessDone(step, done, size)
    ensures Fold(step, s, rs, n) == s <==> forall k :: 0 <= k < n ==> done(s, rs[k])
  {
    if n == 0 {
    } else {
      FoldRestsIff(step, done, size, s, rs, n - 1);
      FoldGrows(step, done, size, s, rs, n - 1);
      assert step(Fold(step, s, rs, n - 1), rs[n - 1]) == Fold(step, s, rs, n);
    }
  }
}
