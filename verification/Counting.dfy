/** Counting with lists of distinct numbers. */
module Counting {

  predicate Distinct<T(==)>(xs: seq<T>) {
    forall i, j :: 0 <= i < j < |xs| ==> xs[i] != xs[j]
  }

  lemma DistinctAppend<T>(xs: seq<T>, ys: seq<T>)
    requires Distinct(xs) && Distinct(ys) && forall x :: x in xs ==> x !in ys
    ensures Distinct(xs + ys)
  {
    var all := xs + ys;
    forall i, j | 0 <= i < j < |all| ensures all[i] != all[j] {
      if i < |xs| <= j { assert xs[i] in xs && ys[j - |xs|] in ys; }
    }
  }

  lemma RemoveAt(xs: seq<nat>, n: nat) returns (k: nat, rest: seq<nat>)
    requires n in xs
    ensures k < |xs| && xs[k] == n && rest == xs[..k] + xs[k + 1..]
    ensures forall x :: x in rest ==> x in xs
    ensures forall x :: x in xs && x != n ==> x in rest
    ensures Distinct(xs) ==> Distinct(rest) && n !in rest
  {
    k :| k < |xs| && xs[k] == n;
    rest := xs[..k] + xs[k + 1..];
    forall x | x in xs && x != n ensures x in rest {
      var j :| 0 <= j < |xs| && xs[j] == x;
      assert x == if j < k then rest[j] else rest[j - 1];
    }
  }

  /** Distinct numbers below `n` are at most `n` many, and `n` many only if all are there. */
  lemma {:induction false} DistinctBelow(xs: seq<nat>, n: nat)
    requires Distinct(xs) && forall x :: x in xs ==> x < n
    ensures |xs| <= n
    ensures |xs| == n ==> forall i: nat :: i < n ==> i in xs
    decreases n
  {
    assert xs == [] || (xs[0] in xs && 0 <= xs[0] < n);
    if n > 0 {
      if n - 1 in xs {
        var k, rest := RemoveAt(xs, n - 1);
        DistinctBelow(rest, n - 1);
      } else {
        DistinctBelow(xs, n - 1);
      }
    }
  }

  lemma {:induction false} AllBelow(xs: seq<nat>, n: nat)
    requires forall i: nat :: i < n ==> i in xs
    ensures |xs| >= n
    decreases n
  {
    if n > 0 {
      var k, rest := RemoveAt(xs, n - 1);
      AllBelow(rest, n - 1);
    }
  }

  lemma MultisetWithout<T>(ys: seq<T>, k: nat)
    requires k < |ys|
    ensures multiset(ys) == multiset(ys[..k] + ys[k + 1..]) + multiset{ys[k]}
  {
    assert ys == ys[..k] + ([ys[k]] + ys[k + 1..]);
    assert multiset(ys) == multiset(ys[..k]) + (multiset{ys[k]} + multiset(ys[k + 1..]));
    assert multiset(ys[..k] + ys[k + 1..]) == multiset(ys[..k]) + multiset(ys[k + 1..]);
  }

  lemma PositionsWithout<T>(xs: seq<T>, ids: seq<nat>, ys: seq<T>, k: nat)
    requires Distinct(ids) && |ids| == |xs| == |ys| && k < |ids| && ids[k] == |xs| - 1
    requires forall j :: 0 <= j < |ids| ==> ids[j] < |xs| && ys[j] == xs[ids[j]]
    ensures var ids', ys' := ids[..k] + ids[k + 1..], ys[..k] + ys[k + 1..];
            forall i :: 0 <= i < |ids'| ==> ids'[i] < |xs| - 1 && ys'[i] == xs[..|xs| - 1][ids'[i]]
  {
    var ids', ys' := ids[..k] + ids[k + 1..], ys[..k] + ys[k + 1..];
    forall i | 0 <= i < |ids'| ensures ids'[i] < |xs| - 1 && ys'[i] == xs[..|xs| - 1][ids'[i]] {
      var j := if i < k then i else i + 1;
      assert ids'[i] == ids[j] && ys'[i] == ys[j] && ids[j] != ids[k];
    }
  }

  lemma MultisetLast<T>(xs: seq<T>)
    requires xs != []
    ensures multiset(xs) == multiset(xs[..|xs| - 1]) + multiset{xs[|xs| - 1]}
  {
    assert xs == xs[..|xs| - 1] + [xs[|xs| - 1]];
  }

  /** Picking the elements of `xs` at distinct positions, one for each, only reorders them. */
  lemma {:induction false} PermutedMultiset<T>(xs: seq<T>, ids: seq<nat>, ys: seq<T>)
    requires Distinct(ids) && |ids| == |xs| == |ys|
    requires forall k :: 0 <= k < |ids| ==> ids[k] < |xs| && ys[k] == xs[ids[k]]
    ensures multiset(ys) == multiset(xs)
    decreases |xs|
  {
    var n := |xs|;
    if n > 0 {
      DistinctBelow(ids, n);
      var k, rest := RemoveAt(ids, n - 1);
      PositionsWithout(xs, ids, ys, k);
      PermutedMultiset(xs[..n - 1], rest, ys[..k] + ys[k + 1..]);
      MultisetWithout(ys, k);
      MultisetLast(xs);
    }
  }

  lemma {:induction false} CountDistinct<T>(xs: seq<T>, x: T)
    requires Distinct(xs)
    ensures multiset(xs)[x] == if x in xs then 1 else 0
  {
    if xs != [] {
      assert xs == [xs[0]] + xs[1..];
      CountDistinct(xs[1..], x);
    }
  }

  lemma DistinctSameElements<T>(xs: seq<T>, ys: seq<T>)
    requires Distinct(xs) && Distinct(ys) && forall x :: x in xs <==> x in ys
    ensures multiset(xs) == multiset(ys)
  {
    forall x ensures multiset(xs)[x] == multiset(ys)[x] {
      CountDistinct(xs, x);
      CountDistinct(ys, x);
    }
  }

  /** A set written out as a list. */
  lemma {:induction false} ListOf<T>(s: set<T>) returns (xs: seq<T>)
    ensures Distinct(xs) && forall x :: x in xs <==> x in s
  {
    if s == {} {
      xs := [];
    } else {
      var x :| x in s;
      var rest := ListOf(s - {x});
      xs := [x] + rest;
    }
  }
}
