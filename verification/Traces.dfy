/** Reordering runs of commuting steps, for any steps and any notion of dependence. */
module Traces {
  import opened Counting

  ghost function RunAll<S, L>(step: (S, L) -> S, s: S, ls: seq<L>): S
    decreases |ls|
  {
    if ls == [] then s else RunAll(step, step(s, ls[0]), ls[1..])
  }

  /** The occurrences of `a` and of `b`, in order. */
  ghost function Restrict<L>(ls: seq<L>, a: L, b: L): seq<L>
    decreases |ls|
  {
    if ls == [] then []
    else if ls[0] == a || ls[0] == b then [ls[0]] + Restrict(ls[1..], a, b)
    else Restrict(ls[1..], a, b)
  }

  ghost predicate Dependence<L(!new)>(dep: (L, L) -> bool) {
    forall a, b :: dep(a, b) ==> dep(b, a)
  }

  ghost predicate Commutes<S(!new), L(!new)>(step: (S, L) -> S, dep: (L, L) -> bool) {
    forall s, a, b :: !dep(a, b) ==> step(step(s, a), b) == step(step(s, b), a)
  }

  /** The same steps, each dependent pair of different steps in the same relative order. */
  ghost predicate Reordering<L(!new)>(dep: (L, L) -> bool, xs: seq<L>, ys: seq<L>) {
    && multiset(xs) == multiset(ys)
    && forall a, b :: a != b && dep(a, b) ==> Restrict(xs, a, b) == Restrict(ys, a, b)
  }

  lemma {:induction false} RestrictAppend<L>(xs: seq<L>, ys: seq<L>, a: L, b: L)
    ensures Restrict(xs + ys, a, b) == Restrict(xs, a, b) + Restrict(ys, a, b)
    decreases |xs|
  {
    if xs == [] {
      assert xs + ys == ys;
    } else {
      assert (xs + ys)[0] == xs[0] && (xs + ys)[1..] == xs[1..] + ys;
      RestrictAppend(xs[1..], ys, a, b);
      var rx, ry := Restrict(xs[1..], a, b), Restrict(ys, a, b);
      assert [xs[0]] + (rx + ry) == ([xs[0]] + rx) + ry;
    }
  }

  lemma RestrictAround<L>(before: seq<L>, x: L, rest: seq<L>, a: L, b: L)
    ensures Restrict(before + ([x] + rest), a, b)
            == Restrict(before, a, b) + (if x == a || x == b then [x] + Restrict(rest, a, b) else Restrict(rest, a, b))
  {
    RestrictAppend(before, [x] + rest, a, b);
    assert ([x] + rest)[0] == x && ([x] + rest)[1..] == rest;
  }

  lemma {:induction false} RestrictSound<L>(xs: seq<L>, a: L, b: L)
    ensures Restrict(xs, a, b) == [] <==> a !in xs && b !in xs
    ensures forall x :: x in Restrict(xs, a, b) ==> x in xs
    decreases |xs|
  {
    if xs != [] {
      RestrictSound(xs[1..], a, b);
    }
  }

  lemma {:induction false} RestrictHead<L>(xs: seq<L>, a: L, b: L)
    requires a !in xs && b in xs
    ensures Restrict(xs, a, b) != [] && Restrict(xs, a, b)[0] == b
    decreases |xs|
  {
    if xs[0] != b { RestrictHead(xs[1..], a, b); }
  }

  lemma {:induction false} RestrictToOne<L>(xs: seq<L>, a: L, b: L)
    requires Distinct(xs) && a !in xs && b in xs
    ensures Restrict(xs, a, b) == Restrict(xs, b, a) == [b]
    decreases |xs|
  {
    var rest := xs[1..];
    if xs[0] == b {
      assert forall k :: 0 <= k < |rest| ==> rest[k] == xs[k + 1];
      RestrictSound(rest, a, b);
      RestrictSound(rest, b, a);
    } else {
      RestrictToOne(rest, a, b);
    }
  }

  /** Of two different elements, each there at most once, one comes first. */
  lemma {:induction false} RestrictOfDistinct<L>(xs: seq<L>, a: L, b: L, i: nat, j: nat)
    requires Distinct(xs) && i < j < |xs| && xs[i] == a && xs[j] == b
    ensures Restrict(xs, a, b) == Restrict(xs, b, a) == [a, b]
    decreases |xs|
  {
    var rest := xs[1..];
    if i == 0 {
      assert rest[j - 1] == b;
      RestrictToOne(rest, a, b);
    } else {
      assert xs[0] != a && xs[0] != b;
      RestrictOfDistinct(rest, a, b, i - 1, j - 1);
    }
  }

  /** Where one list has `a` before `b`, so has another that restricts to them alike. */
  lemma SameOrder<L>(xs: seq<L>, ys: seq<L>, a: L, b: L, i: nat, j: nat) returns (i': nat, j': nat)
    requires Distinct(xs) && Distinct(ys) && i < j < |xs| && xs[i] == a && xs[j] == b
    requires a in ys && b in ys && Restrict(xs, a, b) == Restrict(ys, a, b)
    ensures i' < j' < |ys| && ys[i'] == a && ys[j'] == b
  {
    RestrictOfDistinct(xs, a, b, i, j);
    i' :| 0 <= i' < |ys| && ys[i'] == a;
    j' :| 0 <= j' < |ys| && ys[j'] == b;
    if j' < i' { RestrictOfDistinct(ys, b, a, j', i'); }
  }

  lemma {:induction false} RunAllAppend<S, L>(step: (S, L) -> S, s: S, xs: seq<L>, ys: seq<L>)
    ensures RunAll(step, s, xs + ys) == RunAll(step, RunAll(step, s, xs), ys)
    decreases |xs|
  {
    if xs == [] {
      assert xs + ys == ys;
    } else {
      assert (xs + ys)[1..] == xs[1..] + ys;
      RunAllAppend(step, step(s, xs[0]), xs[1..], ys);
    }
  }

  lemma RunAllLast<S, L>(step: (S, L) -> S, s: S, xs: seq<L>, x: L)
    ensures RunAll(step, s, xs + [x]) == step(RunAll(step, s, xs), x)
  {
    RunAllAppend(step, s, xs, [x]);
    var s' := RunAll(step, s, xs);
    assert [x][1..] == [];
    assert RunAll(step, s', [x]) == RunAll(step, step(s', x), []);
  }

  /** A step independent of all steps before it can be taken first. */
  lemma {:induction false} MoveToFront<S(!new), L(!new)>(
      step: (S, L) -> S, dep: (L, L) -> bool, s: S, before: seq<L>, a: L)
    requires Dependence(dep) && Commutes(step, dep)
    requires forall b :: b in before ==> !dep(a, b)
    ensures step(RunAll(step, s, before), a) == RunAll(step, step(s, a), before)
    decreases |before|
  {
    if before != [] {
      assert before[0] in before;
      MoveToFront(step, dep, step(s, before[0]), before[1..], a);
    }
  }

  /** In `ys`, everything before the first `a` is independent of `a` if some reordering starts with `a`. */
  lemma FirstIsFree<L(!new)>(dep: (L, L) -> bool, xs: seq<L>, ys: seq<L>, i: nat, b: L)
    requires xs != [] && Reordering(dep, xs, ys)
    requires i < |ys| && ys[i] == xs[0] && xs[0] !in ys[..i] && b in ys[..i]
    ensures !dep(xs[0], b)
  {
    var a := xs[0];
    var front := Restrict(ys[..i], a, b);
    RestrictAppend(ys[..i], ys[i..], a, b);
    assert ys == ys[..i] + ys[i..];
    RestrictHead(ys[..i], a, b);
    assert Restrict(ys, a, b)[0] == front[0] == b;
    assert Restrict(xs, a, b)[0] == a;
    assert b != a;
  }

  lemma MultisetAround<L>(before: seq<L>, x: L, rest: seq<L>)
    ensures multiset(before + ([x] + rest)) == multiset(before + rest) + multiset{x}
  {
    assert multiset(before + ([x] + rest)) == multiset(before) + (multiset{x} + multiset(rest));
    assert multiset(before + rest) == multiset(before) + multiset(rest);
  }

  lemma DropFirstMultiset<L>(a: L, xs: seq<L>, before: seq<L>, rest: seq<L>)
    requires multiset([a] + xs) == multiset(before + ([a] + rest))
    ensures multiset(xs) == multiset(before + rest)
  {
    MultisetAround([], a, xs);
    assert [] + ([a] + xs) == [a] + xs && [] + xs == xs;
    MultisetAround(before, a, rest);
    assert multiset(xs) == multiset([a] + xs) - multiset{a};
    assert multiset(before + rest) == multiset(before + ([a] + rest)) - multiset{a};
  }

  lemma DropFirstRestrict<L>(a: L, xs: seq<L>, before: seq<L>, rest: seq<L>, c: L, d: L)
    requires Restrict([a] + xs, c, d) == Restrict(before + ([a] + rest), c, d)
    requires a == c || a == d ==> Restrict(before, c, d) == []
    ensures Restrict(xs, c, d) == Restrict(before + rest, c, d)
  {
    RestrictAround(before, a, rest, c, d);
    RestrictAppend(before, rest, c, d);
    assert ([a] + xs)[0] == a && ([a] + xs)[1..] == xs;
    var rx, rr := Restrict(xs, c, d), Restrict(rest, c, d);
    if a == c || a == d {
      assert [] + ([a] + rr) == [a] + rr && [] + rr == rr;
      assert ([a] + rx)[1..] == rx && ([a] + rr)[1..] == rr;
    }
  }

  lemma DropFirst<L(!new)>(dep: (L, L) -> bool, xs: seq<L>, ys: seq<L>, i: nat)
    requires Dependence(dep)
    requires xs != [] && Reordering(dep, xs, ys)
    requires i < |ys| && ys[i] == xs[0] && xs[0] !in ys[..i]
    ensures Reordering(dep, xs[1..], ys[..i] + ys[i + 1..])
  {
    var a, before, rest := xs[0], ys[..i], ys[i + 1..];
    assert xs == [a] + xs[1..] && ys == before + ([a] + rest);
    DropFirstMultiset(a, xs[1..], before, rest);
    forall c, d | c != d && dep(c, d)
      ensures Restrict(xs[1..], c, d) == Restrict(before + rest, c, d)
    {
      if a == c || a == d {
        var other := if a == c then d else c;
        if other in before { FirstIsFree(dep, xs, ys, i, other); }
        RestrictSound(before, c, d);
      }
      DropFirstRestrict(a, xs[1..], before, rest, c, d);
    }
  }

  lemma FirstIndex<L>(ys: seq<L>, a: L) returns (i: nat)
    requires a in ys
    ensures i < |ys| && ys[i] == a && a !in ys[..i]
  {
    i := 0;
    while ys[i] != a
      invariant i < |ys| && a !in ys[..i]
      decreases |ys| - i
    {
      i := i + 1;
      assert ys[..i] == ys[..i - 1] + [ys[i - 1]];
      assert ys == ys[..i] + ys[i..];
    }
  }

  /** Runs that differ only in the order of independent steps end in the same state. */
  lemma {:induction false} ReorderedRunsAgree<S(!new), L(!new)>(
      step: (S, L) -> S, dep: (L, L) -> bool, s: S, xs: seq<L>, ys: seq<L>)
    requires Dependence(dep) && Commutes(step, dep)
    requires Reordering(dep, xs, ys)
    ensures RunAll(step, s, xs) == RunAll(step, s, ys)
    decreases |xs|
  {
    assert |xs| == |multiset(xs)| && |ys| == |multiset(ys)|;
    if xs != [] {
      var a := xs[0];
      assert a in multiset(ys);
      var i := FirstIndex(ys, a);
      forall b | b in ys[..i] ensures !dep(a, b) { FirstIsFree(dep, xs, ys, i, b); }
      DropFirst(dep, xs, ys, i);
      assert ys == ys[..i] + ys[i..] && ys[i..][1..] == ys[i + 1..];
      RunAllAppend(step, s, ys[..i], ys[i..]);
      MoveToFront(step, dep, s, ys[..i], a);
      RunAllAppend(step, step(s, a), ys[..i], ys[i + 1..]);
      ReorderedRunsAgree(step, dep, step(s, a), xs[1..], ys[..i] + ys[i + 1..]);
    }
  }
}
