/** Keeping some elements of a sequence, in order. */
module Filters {

  function Filter<T>(s: seq<T>, keep: T -> bool): (r: seq<T>)
    ensures forall x :: x in r ==> x in s && keep(x)
    ensures forall x :: x in s && keep(x) ==> x in r
  {
    if s == [] then []
    else
      var rest := Filter(s[1..], keep);
      if keep(s[0]) then [s[0]] + rest else rest
  }

  ghost predicate Pairwise<T>(s: seq<T>, rel: (T, T) -> bool) {
    forall i, j :: 0 <= i < j < |s| ==> rel(s[i], s[j])
  }

  /** What holds between any two elements in order holds between those that are kept. */
  lemma {:induction false} FilterPairwise<T>(s: seq<T>, keep: T -> bool, rel: (T, T) -> bool)
    requires Pairwise(s, rel)
    ensures Pairwise(Filter(s, keep), rel)
  {
    if s != [] {
      assert Pairwise(s[1..], rel);
      FilterPairwise(s[1..], keep, rel);
      var rest := Filter(s[1..], keep);
      assert forall j :: 0 <= j < |rest| ==> rest[j] in rest;
    }
  }

  lemma {:induction false} FilterAll<T>(s: seq<T>, keep: T -> bool)
    requires forall i :: 0 <= i < |s| ==> keep(s[i])
    ensures Filter(s, keep) == s
  {
    if s != [] {
      FilterAll(s[1..], keep);
    }
  }

  /** Dropping exactly the element at position i. */
  lemma {:induction false} FilterOne<T>(s: seq<T>, keep: T -> bool, i: nat)
    requires i < |s| && !keep(s[i]) && forall j :: 0 <= j < |s| && j != i ==> keep(s[j])
    ensures Filter(s, keep) == s[..i] + s[i + 1..]
  {
    if i == 0 {
      FilterAll(s[1..], keep);
    } else {
      FilterOne(s[1..], keep, i - 1);
      assert s[..i] + s[i + 1..] == [s[0]] + (s[1..][..i - 1] + s[1..][i..]);
    }
  }

  /** An element that is not kept may as well be gone. */
  lemma {:induction false} FilterSkips<T>(s: seq<T>, keep: T -> bool, i: nat)
    requires i < |s| && !keep(s[i])
    ensures Filter(s[..i] + s[i + 1..], keep) == Filter(s, keep)
  {
    var r := s[..i] + s[i + 1..];
    if i == 0 {
      assert r == s[1..];
    } else {
      FilterSkips(s[1..], keep, i - 1);
      assert r[0] == s[0] && r[1..] == s[1..][..i - 1] + s[1..][i..];
    }
  }

  lemma FilterStep<T>(s: seq<T>, keep: T -> bool, k: nat)
    requires k <= |s|
    ensures Filter(s[k..], keep)
            == if k == |s| then [] else (if keep(s[k]) then [s[k]] else []) + Filter(s[k + 1..], keep)
  {
    if k < |s| {
      assert s[k..][0] == s[k] && s[k..][1..] == s[k + 1..];
    }
  }
}
