/**
 * The bucket tree of the database, and its flat view: `Look` says what stands at each path. Two trees with
 * the same flat view are the same tree, so everything below is stated, and proved, path by path.
 */
module Tree {
  import opened Types
  import opened Paths

  type Path = seq<string>

  datatype Tree = Leaf(obj: KVObject) | Bucket(kids: map<string, Tree>)

  datatype Entry = Absent | Directory | Stored(obj: KVObject)

  const EMPTY: Tree := Bucket(map[])

  function Look(t: Tree, p: Path): Entry {
    if p == [] then
      match t
      case Leaf(obj) => Stored(obj)
      case Bucket(_) => Directory
    else if t.Bucket? && p[0] in t.kids then Look(t.kids[p[0]], p[1..])
    else Absent
  }

  /** The tree with `n` at `p`; missing buckets above `p` are created, values in the way are replaced. */
  function Graft(t: Tree, p: Path, n: Tree): Tree
    decreases |p|
  {
    if p == [] then n
    else
      var kids := if t.Bucket? then t.kids else map[];
      Bucket(kids[p[0] := Graft(if p[0] in kids then kids[p[0]] else EMPTY, p[1..], n)])
  }

  /** The tree without whatever stands at `p`. */
  function Prune(t: Tree, p: Path): Tree
    requires p != []
  {
    if t.Leaf? || p[0] !in t.kids then t
    else if |p| == 1 then Bucket(t.kids - {p[0]})
    else Bucket(t.kids[p[0] := Prune(t.kids[p[0]], p[1..])])
  }

  predicate Comparable(p: Path, q: Path) {
    p <= q || q <= p
  }

  lemma PrefixesCompare(p: Path, q: Path, r: Path)
    requires p <= r && q <= r
    ensures Comparable(p, q)
  {
    assert p == r[..|p|] && q == r[..|q|];
  }

  lemma PrefixOrEqual(p: Path, q: Path)
    requires p <= q
    ensures p == q || p < q
  {
    assert p == q[..|p|];
  }

  lemma LookChild(t: Tree, k: string)
    requires t.Bucket?
    ensures Look(t, [k]) == if k in t.kids then Look(t.kids[k], []) else Absent
    ensures k in t.kids ==> Look(t, [k]) != Absent
  {
    assert [k][0] == k && [k][1..] == [];
  }

  /** The flat view determines the tree. */
  lemma {:induction false} SameView(t: Tree, u: Tree)
    requires forall q :: Look(t, q) == Look(u, q)
    ensures t == u
  {
    assert Look(t, []) == Look(u, []);
    if t.Bucket? {
      forall k
        ensures k in t.kids <==> k in u.kids
        ensures k in t.kids && k in u.kids ==> t.kids[k] == u.kids[k]
      {
        LookChild(t, k);
        LookChild(u, k);
        assert Look(t, [k]) == Look(u, [k]);
        if k in t.kids && k in u.kids {
          forall q ensures Look(t.kids[k], q) == Look(u.kids[k], q) {
            assert Look(t, [k] + q) == Look(u, [k] + q);
            assert ([k] + q)[1..] == q;
          }
          SameView(t.kids[k], u.kids[k]);
        }
      }
      assert t.kids == u.kids;
    }
  }

  lemma {:induction false} LookAppend(t: Tree, p: Path, k: string)
    ensures Look(t, p + [k]) != Absent ==> Look(t, p) == Directory
  {
    if p != [] && t.Bucket? && p[0] in t.kids {
      assert (p + [k])[1..] == p[1..] + [k];
      LookAppend(t.kids[p[0]], p[1..], k);
    } else {
      assert p != [] ==> (p + [k])[0] == p[0];
    }
  }

  /** Only buckets have anything below them. */
  lemma {:induction false} AboveIsDirectory(t: Tree, p: Path, q: Path)
    requires p < q && Look(t, q) != Absent
    ensures Look(t, p) == Directory
    decreases |q|
  {
    var front := q[..|q| - 1];
    assert q == front + [q[|q| - 1]];
    LookAppend(t, front, q[|q| - 1]);
    if p != front {
      AboveIsDirectory(t, p, front);
    }
  }

  lemma NothingBelow(t: Tree, p: Path, q: Path)
    requires p < q && Look(t, p) != Directory
    ensures Look(t, q) == Absent
  {
    if Look(t, q) != Absent { AboveIsDirectory(t, p, q); }
  }

  lemma {:induction false} LookEmpty(q: Path)
    ensures Look(EMPTY, q) == if q == [] then Directory else Absent
  {
  }

  lemma {:induction false} LookGraft(t: Tree, p: Path, n: Tree, q: Path)
    ensures Look(Graft(t, p, n), q) ==
            if p <= q then Look(n, q[|p|..])
            else if q < p then Directory
            else Look(t, q)
    decreases |p|
  {
    if p != [] && q != [] && p[0] == q[0] {
      var kids := if t.Bucket? then t.kids else map[];
      var kid := if p[0] in kids then kids[p[0]] else EMPTY;
      LookGraft(kid, p[1..], n, q[1..]);
      assert p <= q <==> p[1..] <= q[1..];
      assert q <= p <==> q[1..] <= p[1..];
      if p <= q { assert q[1..][|p[1..]|..] == q[|p|..]; }
      if !(q[1..] <= p[1..]) { LookEmpty(q[1..]); }
    }
  }

  lemma {:induction false} LookPrune(t: Tree, p: Path, q: Path)
    requires p != []
    ensures Look(Prune(t, p), q) == if p <= q then Absent else Look(t, q)
  {
    if q != [] && p[0] == q[0] && t.Bucket? && p[0] in t.kids {
      assert p <= q <==> p[1..] <= q[1..];
      if |p| > 1 { LookPrune(t.kids[p[0]], p[1..], q[1..]); }
    }
  }

  /** Every name in the tree can be written in a path: not empty and free of slashes. */
  ghost predicate CleanNames(t: Tree) {
    forall q, i :: Look(t, q) != Absent && 0 <= i < |q| ==> q[i] != "" && NoSlash(q[i])
  }

  /** The trees the store can hold: a root bucket with clean names. */
  ghost predicate WellFormed(t: Tree) {
    t.Bucket? && CleanNames(t)
  }

  lemma EmptyIsWellFormed()
    ensures WellFormed(EMPTY)
  {
    forall q ensures Look(EMPTY, q) == if q == [] then Directory else Absent { LookEmpty(q); }
  }
}
