/** Trimming and joining text. */
module Texts {
  /** Which characters trimming removes. */
  type Space = char -> bool

  function TrimStart(space: Space, s: string): string {
    if s != "" && space(s[0]) then TrimStart(space, s[1..]) else s
  }

  function TrimEnd(space: Space, s: string): string {
    if s != "" && space(s[|s| - 1]) then TrimEnd(space, s[..|s| - 1]) else s
  }

  function Trim(space: Space, s: string): string {
    TrimEnd(space, TrimStart(space, s))
  }

  predicate Blank(space: Space, s: string) {
    Trim(space, s) == ""
  }

  predicate AllSpace(space: Space, s: string) {
    forall i :: 0 <= i < |s| ==> space(s[i])
  }

  lemma {:induction false} TrimStartKeeps(space: Space, s: string)
    ensures AllSpace(space, s) <==> TrimStart(space, s) == ""
    ensures AllSpace(space, s) <==> AllSpace(space, TrimStart(space, s))
  {
    if s != "" && space(s[0]) {
      TrimStartKeeps(space, s[1..]);
      assert s == [s[0]] + s[1..];
    }
  }

  lemma {:induction false} TrimEndKeeps(space: Space, s: string)
    ensures AllSpace(space, s) <==> TrimEnd(space, s) == ""
  {
    if s != "" && space(s[|s| - 1]) {
      TrimEndKeeps(space, s[..|s| - 1]);
      assert s == s[..|s| - 1] + [s[|s| - 1]];
    }
  }

  lemma BlankMeansAllSpace(space: Space, s: string)
    ensures Blank(space, s) <==> AllSpace(space, s)
  {
    TrimStartKeeps(space, s);
    TrimEndKeeps(space, TrimStart(space, s));
  }

  lemma {:induction false} TrimStartCuts(space: Space, s: string) returns (a: nat)
    ensures a <= |s| && TrimStart(space, s) == s[a..] && AllSpace(space, s[..a]) && (a < |s| ==> !space(s[a]))
  {
    if s != "" && space(s[0]) {
      var b := TrimStartCuts(space, s[1..]);
      a := b + 1;
      assert s[..a] == [s[0]] + s[1..][..b];
    } else {
      a := 0;
    }
  }

  lemma {:induction false} TrimEndCuts(space: Space, s: string) returns (b: nat)
    ensures b <= |s| && TrimEnd(space, s) == s[..b] && AllSpace(space, s[b..]) && (b > 0 ==> !space(s[b - 1]))
  {
    var last := |s| - 1;
    if s != "" && space(s[last]) {
      b := TrimEndCuts(space, s[..last]);
      assert s[b..] == s[..last][b..] + [s[last]];
    } else {
      b := |s|;
    }
  }

  /** Trimming takes space from either end, as long as there is any. */
  lemma TrimCuts(space: Space, s: string) returns (a: nat, b: nat)
    ensures a <= b <= |s| && Trim(space, s) == s[a..b] && AllSpace(space, s[..a]) && AllSpace(space, s[b..])
    ensures a < b ==> !space(s[a]) && !space(s[b - 1])
  {
    a := TrimStartCuts(space, s);
    var c := TrimEndCuts(space, s[a..]);
    b := a + c;
    assert s[a..][..c] == s[a..b] && s[a..][c..] == s[b..];
  }

  function Join(parts: seq<string>, separator: string): string {
    if parts == [] then ""
    else if |parts| == 1 then parts[0]
    else Join(parts[..|parts| - 1], separator) + separator + parts[|parts| - 1]
  }

  lemma {:induction false} JoinNotBlank(space: Space, parts: seq<string>, separator: string, k: nat)
    requires k < |parts| && !Blank(space, parts[k])
    ensures !Blank(space, Join(parts, separator))
  {
    BlankMeansAllSpace(space, parts[k]);
    BlankMeansAllSpace(space, Join(parts, separator));
    var i :| 0 <= i < |parts[k]| && !space(parts[k][i]);
    var last := |parts| - 1;
    if last > 0 {
      var init := Join(parts[..last], separator);
      if k < last {
        JoinNotBlank(space, parts[..last], separator, k);
        BlankMeansAllSpace(space, init);
        var j :| 0 <= j < |init| && !space(init[j]);
        assert Join(parts, separator)[j] == init[j];
      } else {
        assert Join(parts, separator)[|init + separator| + i] == parts[k][i];
      }
    }
  }

  lemma Regroup(x: string, s: string, y: string, z: string)
    ensures (x + s + y) + s + z == x + s + (y + s + z)
  {
  }

  lemma JoinOneMore(xs: seq<string>, y: string, separator: string)
    requires xs != []
    ensures Join(xs + [y], separator) == Join(xs, separator) + separator + y
  {
    assert (xs + [y])[..|xs|] == xs;
  }

  /** Texts joined in two parts have the separator between the parts as well. */
  lemma {:induction false} JoinInParts(xs: seq<string>, ys: seq<string>, separator: string)
    requires xs != [] && ys != []
    ensures Join(xs + ys, separator) == Join(xs, separator) + separator + Join(ys, separator)
  {
    var init, y := ys[..|ys| - 1], ys[|ys| - 1];
    if init == [] {
      assert xs + ys == xs + [y];
      JoinOneMore(xs, y, separator);
    } else {
      JoinInParts(xs, init, separator);
      assert xs + ys == (xs + init) + [y] && ys == init + [y];
      JoinOneMore(xs + init, y, separator);
      JoinOneMore(init, y, separator);
      Regroup(Join(xs, separator), separator, Join(init, separator), y);
    }
  }
}
