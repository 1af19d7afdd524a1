/** Sums of a measure over the threads (or cells, or items) of a system, and how they react to one update. */
module Sums {

  function SumBy<T>(f: T -> int, s: seq<T>): int
  {
    if s == [] then 0 else f(s[0]) + SumBy(f, s[1..])
  }

  lemma {:induction false} SumAppend<T>(f: T -> int, s: seq<T>, t: seq<T>)
    ensures SumBy(f, s + t) == SumBy(f, s) + SumBy(f, t)
  {
    if s == [] {
      assert s + t == t;
    } else {
      assert (s + t)[1..] == s[1..] + t;
      SumAppend(f, s[1..], t);
    }
  }

  lemma {:induction false} SumUpdate<T>(f: T -> int, s: seq<T>, i: nat, x: T)
    requires i < |s|
    ensures SumBy(f, s[i := x]) == SumBy(f, s) - f(s[i]) + f(x)
  {
    if i == 0 {
      assert s[i := x][1..] == s[1..];
    } else {
      assert s[i := x][1..] == s[1..][i - 1 := x];
      SumUpdate(f, s[1..], i - 1, x);
    }
  }

  /** The last element split off, which is how loops that count upwards consume a sequence. */
  lemma SumLast<T>(f: T -> int, s: seq<T>)
    requires s != []
    ensures SumBy(f, s) == SumBy(f, s[..|s| - 1]) + f(s[|s| - 1])
  {
    assert s == s[..|s| - 1] + [s[|s| - 1]];
    SumAppend(f, s[..|s| - 1], [s[|s| - 1]]);
  }

  lemma {:induction false} SumLeq<T, U>(f: T -> int, s: seq<T>, g: U -> int, t: seq<U>)
    requires |s| == |t|
    requires forall i :: 0 <= i < |s| ==> f(s[i]) <= g(t[i])
    ensures SumBy(f, s) <= SumBy(g, t)
  {
    if s != [] {
      SumLeq(f, s[1..], g, t[1..]);
    }
  }

  lemma SumEq<T, U>(f: T -> int, s: seq<T>, g: U -> int, t: seq<U>)
    requires |s| == |t|
    requires forall i :: 0 <= i < |s| ==> f(s[i]) == g(t[i])
    ensures SumBy(f, s) == SumBy(g, t)
  {
    SumLeq(f, s, g, t);
    SumLeq(g, t, f, s);
  }

  lemma {:induction false} SumConst<T>(f: T -> int, s: seq<T>, k: int)
    requires forall i :: 0 <= i < |s| ==> f(s[i]) == k
    ensures SumBy(f, s) == k * |s|
  {
    if s != [] {
      SumConst(f, s[1..], k);
    }
  }

  /** A sum of non-negative terms bounds each of its terms. */
  lemma {:induction false} SumNonNeg<T>(f: T -> int, s: seq<T>)
    requires forall i :: 0 <= i < |s| ==> 0 <= f(s[i])
    ensures 0 <= SumBy(f, s)
    ensures forall i :: 0 <= i < |s| ==> f(s[i]) <= SumBy(f, s)
  {
    if s != [] {
      SumNonNeg(f, s[1..]);
      forall i | 0 <= i < |s| ensures f(s[i]) <= SumBy(f, s) {
        if i > 0 { assert s[i] == s[1..][i - 1]; }
      }
    }
  }

  lemma {:induction false} SumPositive<T>(f: T -> int, s: seq<T>) returns (i: nat)
    requires SumBy(f, s) > 0
    ensures i < |s| && f(s[i]) > 0
  {
    if f(s[0]) > 0 {
      i := 0;
    } else {
      i := SumPositive(f, s[1..]);
      i := i + 1;
    }
  }
}
