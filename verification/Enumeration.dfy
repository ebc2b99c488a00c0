/** Reading the whole tree at once, and browsing it listing by listing: both find exactly what lookups find. */
module Enumeration {
  import opened Types
  import opened Paths
  import opened Tree
  import opened Updates
  import opened FlatStore
  import opened Replay
  import opened Counting

  /** The nested maps a tree is rendered to. */
  datatype Json = Raw(obj: KVObject) | Object(fields: map<string, Json>)

  function Rendered(t: Tree): Json {
    match t
    case Leaf(obj) => Raw(obj)
    case Bucket(kids) => Object(map k | k in kids :: Rendered(kids[k]))
  }

  /** Walks a bucket with a cursor, descending into sub-buckets. */
  method EnumerateBucket(bkt: Tree) returns (tree: Json)
    requires bkt.Bucket?
    ensures tree == Rendered(bkt)
    decreases bkt
  {
    var fields: map<string, Json> := map[];
    var rest := bkt.kids.Keys;
    while rest != {}
      invariant rest <= bkt.kids.Keys && fields.Keys == bkt.kids.Keys - rest
      invariant forall k :: k in fields ==> fields[k] == Rendered(bkt.kids[k])
    {
      var ea :| ea in rest;
      if bkt.kids[ea].Bucket? {
        var sub := EnumerateBucket(bkt.kids[ea]);
        fields := fields[ea := sub];
      } else {
        fields := fields[ea := Raw(bkt.kids[ea].obj)];
      }
      rest := rest - {ea};
    }
    tree := Object(fields);
    assert fields == Rendered(bkt).fields;
  }

  /** What the nested maps show at a path: an object, a map, or nothing. */
  ghost function Shown(j: Json, p: Path): Entry
    decreases |p|
  {
    if p == [] then
      match j
      case Raw(obj) => Stored(obj)
      case Object(_) => Directory
    else if j.Object? && p[0] in j.fields then Shown(j.fields[p[0]], p[1..])
    else Absent
  }

  /** The dump shows at every path what a lookup finds there, empty buckets included. */
  lemma {:induction false} DumpShowsTree(t: Tree, p: Path)
    ensures Shown(Rendered(t), p) == Look(t, p)
    decreases |p|
  {
    if p != [] && t.Bucket? && p[0] in t.kids {
      DumpShowsTree(t.kids[p[0]], p[1..]);
    }
  }

  /** So two trees with the same dump are the same tree. */
  lemma DumpDeterminesTree(t: Tree, u: Tree)
    requires Rendered(t) == Rendered(u)
    ensures t == u
  {
    forall p ensures Look(t, p) == Look(u, p) {
      DumpShowsTree(t, p);
      DumpShowsTree(u, p);
    }
    SameView(t, u);
  }

  /** The paths and objects in nested maps. */
  ghost function Flatten(j: Json): set<(Path, KVObject)> {
    match j
    case Raw(obj) => {([], obj)}
    case Object(fields) =>
      set k, e | k in fields && e in Flatten(fields[k]) :: ([k] + e.0, e.1)
  }

  lemma {:induction false} FlattenIsLookup(t: Tree, p: Path, obj: KVObject)
    ensures (p, obj) in Flatten(Rendered(t)) <==> Look(t, p) == Stored(obj)
    decreases t
  {
    if t.Bucket? {
      var fields := Rendered(t).fields;
      if p != [] && p[0] in t.kids {
        FlattenIsLookup(t.kids[p[0]], p[1..], obj);
        if Look(t, p) == Stored(obj) {
          var e := (p[1..], obj);
          assert p[0] in fields && e in Flatten(fields[p[0]]);
          assert p == [p[0]] + e.0;
        }
      }
      if (p, obj) in Flatten(Rendered(t)) {
        var k, e :| k in fields && e in Flatten(fields[k]) && (p, obj) == ([k] + e.0, e.1);
        assert p[0] == k && p[1..] == e.0;
      }
    }
  }

  /** Enumeration agrees with lookup: the flattened tree is exactly what a get would return, path by path. */
  lemma EnumerationAgreesWithLookup(t: Tree, key: string, obj: KVObject)
    ensures (Components(key), obj) in Flatten(Rendered(t)) <==> At(t, key) == Stored(obj)
  {
    FlattenIsLookup(t, Components(key), obj);
  }

  /** The puts of all stored pairs, each path once, in some order. */
  ghost predicate Listing(t: Tree, puts: seq<Update>) {
    && (forall u :: u in puts ==> u.PutKey? && At(t, u.key) == Stored(u.value))
    && (forall key :: At(t, key).Stored? ==> PutKey(key, At(t, key).obj) in puts)
    && (forall i, j :: 0 <= i < j < |puts| ==> puts[i] != puts[j])
  }

  function PutOf(e: (Path, KVObject)): Update {
    PutKey(if e.0 == [] then "" else Join(e.0), e.1)
  }

  ghost predicate FromPair(t: Tree, e: (Path, KVObject)) {
    Target(PutOf(e)) == e.0 && Look(t, e.0) == Stored(e.1)
  }

  lemma StoredHasKey(t: Tree, q: Path)
    requires WellFormed(t) && Look(t, q).Stored?
    ensures q != [] && Components(Join(q)) == q
  {
    assert forall c :: c in q ==> NoSlash(c);
    ComponentsJoin(q);
  }

  lemma PairFits(t: Tree, e: (Path, KVObject))
    requires WellFormed(t) && e in Flatten(Rendered(t))
    ensures FromPair(t, e)
  {
    FlattenIsLookup(t, e.0, e.1);
    StoredHasKey(t, e.0);
  }

  function PutsOf(pairs: seq<(Path, KVObject)>): (puts: seq<Update>)
    ensures |puts| == |pairs|
  {
    seq(|pairs|, i requires 0 <= i < |pairs| => PutOf(pairs[i]))
  }

  lemma PairOf(t: Tree, key: string, pairs: seq<(Path, KVObject)>)
    requires At(t, key).Stored? && forall e :: e in Flatten(Rendered(t)) ==> e in pairs
    ensures PutKey(key, At(t, key).obj) in PutsOf(pairs)
  {
    var e := (Components(key), At(t, key).obj);
    FlattenIsLookup(t, e.0, e.1);
    JoinComponents(key);
    var i :| 0 <= i < |pairs| && pairs[i] == e;
    assert PutsOf(pairs)[i] == PutKey(key, At(t, key).obj);
  }

  /** Every well-formed tree has such a list: the flattened tree, written out pair by pair. */
  lemma ListingExists(t: Tree) returns (puts: seq<Update>)
    requires WellFormed(t)
    ensures Listing(t, puts)
  {
    var pairs := ListOf(Flatten(Rendered(t)));
    forall e | e in pairs ensures FromPair(t, e) { PairFits(t, e); }
    puts := PutsOf(pairs);
    forall key | At(t, key).Stored? ensures PutKey(key, At(t, key).obj) in puts {
      PairOf(t, key, pairs);
    }
    forall i, j | 0 <= i < j < |puts| ensures puts[i] != puts[j] {
      assert FromPair(t, pairs[i]) && FromPair(t, pairs[j]);
    }
    forall u | u in puts ensures u.PutKey? && At(t, u.key) == Stored(u.value) {
      var i :| 0 <= i < |puts| && puts[i] == u;
      assert FromPair(t, pairs[i]);
    }
  }

  ghost predicate Puts(puts: seq<Update>, q: Path, obj: KVObject) {
    exists w :: w in puts && w.PutKey? && Target(w) == q && w.value == obj
  }

  ghost predicate Needs(puts: seq<Update>, q: Path) {
    q == [] || exists w :: w in puts && q < Target(w)
  }

  /** `u` holds the values put by `puts` and only the buckets these need. */
  ghost predicate Holds(u: Tree, puts: seq<Update>) {
    && (forall q, obj :: Look(u, q) == Stored(obj) <==> Puts(puts, q, obj))
    && (forall q :: Look(u, q).Directory? <==> Needs(puts, q))
  }

  lemma StoredIncomparable(t: Tree, p: Path, q: Path)
    requires Look(t, p).Stored? && Look(t, q).Stored?
    ensures !(p < q)
  {
    if p < q { AboveIsDirectory(t, p, q); }
  }

  /** The root, and every bucket with a value somewhere below it. */
  ghost predicate LeadsToValue(t: Tree, q: Path) {
    q == [] || exists p :: q < p && Look(t, p).Stored?
  }

  ghost predicate AllFrom(t: Tree, puts: seq<Update>) {
    forall x :: x in puts ==> x.PutKey? && At(t, x.key) == Stored(x.value)
  }

  lemma PutFires(t: Tree, u: Tree, puts: seq<Update>, w: Update)
    requires WellFormed(t) && Holds(u, puts) && AllFrom(t, puts)
    requires w.PutKey? && At(t, w.key) == Stored(w.value)
    ensures Fires(u, w)
  {
    var p := Target(w);
    forall r | r < p ensures !Look(u, r).Stored? {
      if Look(u, r).Stored? {
        assert Puts(puts, r, Look(u, r).obj);
        StoredIncomparable(t, r, p);
      }
    }
    if Look(u, p).Directory? {
      assert Needs(puts, p);
      var x :| x in puts && p < Target(x);
      StoredIncomparable(t, p, Target(x));
    }
  }

  lemma PutFits(t: Tree, u: Tree, puts: seq<Update>, w: Update)
    requires WellFormed(t) && Holds(u, puts) && AllFrom(t, puts)
    requires w.PutKey? && At(t, w.key) == Stored(w.value) && w !in puts
    ensures Fires(u, w) && Holds(Apply(u, w), puts + [w])
  {
    var p, u' := Target(w), Apply(u, w);
    PutFires(t, u, puts, w);
    assert w in puts + [w];
    assert forall x :: x in puts + [w] <==> x in puts || x == w;
    forall q, obj ensures Look(u', q) == Stored(obj) <==> Puts(puts + [w], q, obj) {
      LookApply(u, w, q);
      if q < p && Puts(puts, q, obj) { StoredIncomparable(t, q, p); }
      if q == p && Puts(puts, q, obj) {
        var x :| x in puts && x.PutKey? && Target(x) == q && x.value == obj;
        ComponentsInjective(x.key, w.key);
      }
      assert Puts(puts + [w], q, obj) <==> Puts(puts, q, obj) || (q == p && obj == w.value);
    }
    forall q ensures Look(u', q).Directory? <==> Needs(puts + [w], q) {
      LookApply(u, w, q);
      assert Needs(puts + [w], q) <==> Needs(puts, q) || q < p;
    }
  }

  lemma {:induction false} RebuildPrefix(t: Tree, puts: seq<Update>, n: nat)
    requires WellFormed(t) && Listing(t, puts) && n <= |puts|
    ensures Emittable(EMPTY, puts[..n]) && Holds(Run(EMPTY, puts[..n]), puts[..n])
  {
    if n == 0 {
      forall q ensures Look(EMPTY, q) == if q == [] then Directory else Absent { LookEmpty(q); }
    } else {
      RebuildPrefix(t, puts, n - 1);
      var front, w := puts[..n - 1], puts[n - 1];
      assert puts[..n] == front + [w];
      PutFits(t, Run(EMPTY, front), front, w);
      RunAppend(EMPTY, front, [w]);
      assert [w][1..] == [];
      assert Run(Apply(Run(EMPTY, front), w), []) == Apply(Run(EMPTY, front), w);
      EmittableAppend(EMPTY, front, [w]);
    }
  }

  lemma ListingIsComplete(t: Tree, puts: seq<Update>, q: Path, obj: KVObject)
    requires WellFormed(t) && Listing(t, puts)
    ensures Look(t, q) == Stored(obj) <==> Puts(puts, q, obj)
  {
    if Look(t, q) == Stored(obj) {
      StoredHasKey(t, q);
      assert At(t, Join(q)) == Stored(obj);
      assert PutKey(Join(q), obj) in puts;
    }
  }

  lemma SameValues(t: Tree, u: Tree, puts: seq<Update>, q: Path)
    requires WellFormed(t) && Listing(t, puts) && Holds(u, puts)
    requires Look(t, q).Stored? || Look(u, q).Stored?
    ensures Look(u, q) == Look(t, q)
  {
    var obj := if Look(t, q).Stored? then Look(t, q).obj else Look(u, q).obj;
    ListingIsComplete(t, puts, q, obj);
    assert Look(u, q) == Stored(obj) <==> Puts(puts, q, obj);
  }

  lemma NeededBuckets(t: Tree, puts: seq<Update>, q: Path)
    requires WellFormed(t) && Listing(t, puts)
    ensures Needs(puts, q) <==> LeadsToValue(t, q)
  {
    if w :| w in puts && q < Target(w) { assert Look(t, Target(w)).Stored?; }
    if p :| q < p && Look(t, p).Stored? {
      ListingIsComplete(t, puts, p, Look(t, p).obj);
    }
  }

  /**
   * Rebuilding: putting the stored pairs into an empty store, in any order, every put succeeds, and the result
   * is the same tree but for the buckets with no value below them.
   */
  lemma RebuildInAnyOrder(t: Tree, puts: seq<Update>)
    requires WellFormed(t) && Listing(t, puts)
    ensures Emittable(EMPTY, puts)
    ensures forall q :: Look(t, q).Stored? || Look(Run(EMPTY, puts), q).Stored? ==>
                        Look(Run(EMPTY, puts), q) == Look(t, q)
    ensures forall q :: Look(Run(EMPTY, puts), q).Directory? <==> LeadsToValue(t, q)
  {
    RebuildPrefix(t, puts, |puts|);
    assert puts[..|puts|] == puts;
    var u := Run(EMPTY, puts);
    forall q | Look(t, q).Stored? || Look(u, q).Stored? ensures Look(u, q) == Look(t, q) {
      SameValues(t, u, puts, q);
    }
    forall q ensures Look(u, q).Directory? <==> LeadsToValue(t, q) {
      NeededBuckets(t, puts, q);
    }
  }

  // --- Browsing ---------------------------------------------------------------------------------------------

  /** The node at a path. */
  function NodeAt(t: Tree, p: Path): Tree
    requires Look(t, p) != Absent
    decreases |p|
  {
    if p == [] then t else NodeAt(t.kids[p[0]], p[1..])
  }

  lemma {:induction false} LookFromNode(t: Tree, p: Path, q: Path)
    requires Look(t, p) != Absent
    ensures Look(t, p + q) == Look(NodeAt(t, p), q)
    decreases |p|
  {
    if p == [] {
      assert p + q == q;
    } else {
      assert (p + q)[1..] == p[1..] + q;
      LookFromNode(t.kids[p[0]], p[1..], q);
    }
  }

  /** The names in a bucket as a listing shows them: those of sub-buckets end in a slash. */
  function Marked(n: Tree): set<string>
    requires n.Bucket?
  {
    set k | k in n.kids :: if n.kids[k].Bucket? then k + "/" else k
  }

  function Front(s: string): Path {
    Components(s)[..|Components(s)| - 1]
  }

  function Last(s: string): string {
    Components(s)[|Components(s)| - 1]
  }

  /** A path ending in a slash, or the empty path, lists the bucket before the slash. */
  predicate IsDir(t: Tree, dir: string) {
    Last(dir) == "" && Look(t, Front(dir)).Directory?
  }

  lemma NodeAtIsBucket(t: Tree, p: Path)
    requires Look(t, p).Directory?
    ensures NodeAt(t, p).Bucket?
  {
    LookFromNode(t, p, []);
    assert p + [] == p;
  }

  function KeysAt(t: Tree, dir: string): set<string>
    requires IsDir(t, dir)
  {
    NodeAtIsBucket(t, Front(dir));
    Marked(NodeAt(t, Front(dir)))
  }

  lemma DirShape(dir: string) returns (top: string)
    requires Last(dir) == ""
    ensures Front(dir) == [] ==> dir == ""
    ensures Front(dir) != [] ==> dir == top + "/" && Components(top) == Front(dir)
  {
    var d := Front(dir);
    JoinComponents(dir);
    assert Components(dir) == d + [""];
    if d == [] {
      top := "";
      assert d + [""] == [""];
    } else {
      top := Join(d);
      ComponentsJoin(d);
      JoinAppend(d, [""]);
      assert top + "/" + "" == top + "/";
    }
  }

  lemma DirAppend(dir: string, s: string)
    requires Last(dir) == ""
    ensures Components(dir + s) == Front(dir) + Components(s)
  {
    var top := DirShape(dir);
    if Front(dir) == [] {
      assert dir + s == s && Front(dir) + Components(s) == Components(s);
    } else {
      ComponentsAppend(top, s);
    }
  }

  lemma {:induction false} NodeAtStep(t: Tree, p: Path, k: string)
    requires Look(t, p + [k]) != Absent
    ensures Look(t, p).Directory? && NodeAt(t, p).Bucket? && k in NodeAt(t, p).kids
    ensures NodeAt(t, p + [k]) == NodeAt(t, p).kids[k]
    decreases |p|
  {
    LookAppend(t, p, k);
    NodeAtIsBucket(t, p);
    if p == [] {
      assert p + [k] == [k];
      assert [k][1..] == [];
      assert NodeAt(t.kids[k], []) == t.kids[k];
    } else {
      assert (p + [k])[1..] == p[1..] + [k];
      NodeAtStep(t.kids[p[0]], p[1..], k);
    }
  }

  predicate EndsInSlash(s: string) {
    s != "" && s[|s| - 1] == '/'
  }

  /** What a listing entry stands for. In a well-formed tree the slash marks the buckets and nothing else. */
  lemma MarkMeansBucket(t: Tree, dir: string, name: string)
    requires WellFormed(t) && IsDir(t, dir) && name in KeysAt(t, dir)
    ensures EndsInSlash(name) ==>
              && IsDir(t, dir + name)
              && NodeAt(t, Front(dir + name)) < NodeAt(t, Front(dir))
    ensures !EndsInSlash(name) ==> At(t, dir + name).Stored?
  {
    var d := Front(dir);
    NodeAtIsBucket(t, d);
    var n := NodeAt(t, d);
    var k :| k in n.kids && name == if n.kids[k].Bucket? then k + "/" else k;
    LookFromNode(t, d, [k]);
    assert [k][1..] == [];
    assert Look(t, d + [k]) == Look(n.kids[k], []);
    NodeAtStep(t, d, k);
    assert (d + [k])[|d|] == k;
    assert NoSlash(k);
    DirAppend(dir, name);
    if n.kids[k].Bucket? {
      ComponentsOfCons(k, "");
      assert k + "/" + "" == name;
      assert Components(dir + name) == (d + [k]) + [""];
      assert Front(dir + name) == d + [k];
    } else {
      ComponentsOfPlain(k);
    }
  }

  /** Everything found by listing `dir`, then every listed sub-bucket, and so on down. */
  ghost function Walk(t: Tree, dir: string): iset<string>
    requires WellFormed(t) && IsDir(t, dir)
    decreases NodeAt(t, Front(dir))
  {
    (iset name | name in KeysAt(t, dir) && !EndsInSlash(name) :: dir + name)
    + (iset name, key |
         && name in KeysAt(t, dir) && EndsInSlash(name)
         && (MarkMeansBucket(t, dir, name); key in Walk(t, dir + name))
         :: key)
  }

  lemma {:induction false} WalkFinds(t: Tree, dir: string, key: string)
    requires WellFormed(t) && IsDir(t, dir)
    requires dir <= key && At(t, key).Stored?
    ensures key in Walk(t, dir)
    decreases NodeAt(t, Front(dir))
  {
    var d, rest := Front(dir), key[|dir|..];
    assert key == dir + rest;
    DirAppend(dir, rest);
    var c := Components(rest);
    NodeAtIsBucket(t, d);
    var n := NodeAt(t, d);
    LookFromNode(t, d, c);
    var name := if n.kids[c[0]].Bucket? then c[0] + "/" else c[0];
    assert name in KeysAt(t, dir);
    MarkMeansBucket(t, dir, name);
    JoinComponents(rest);
    assert (d + c)[|d|] == c[0];
    assert NoSlash(c[0]);
    if n.kids[c[0]].Bucket? {
      assert dir + name <= key;
      WalkFinds(t, dir + name, key);
    } else {
      assert c == [c[0]];
      assert !EndsInSlash(name) && key == dir + name;
    }
  }

  lemma {:induction false} WalkFindsOnlyStored(t: Tree, dir: string, key: string)
    requires WellFormed(t) && IsDir(t, dir) && key in Walk(t, dir)
    ensures At(t, key).Stored?
    decreases NodeAt(t, Front(dir))
  {
    if name :| name in KeysAt(t, dir) && !EndsInSlash(name) && key == dir + name {
      MarkMeansBucket(t, dir, name);
    } else {
      var name :| name in KeysAt(t, dir) && EndsInSlash(name)
        && (MarkMeansBucket(t, dir, name); key in Walk(t, dir + name));
      MarkMeansBucket(t, dir, name);
      WalkFindsOnlyStored(t, dir + name, key);
    }
  }

  /** Browsing is complete: walking the listings down from the root visits exactly the paths a get answers. */
  lemma BrowsingIsComplete(t: Tree)
    requires WellFormed(t)
    ensures IsDir(t, "")
    ensures Walk(t, "") == iset key: string | At(t, key).Stored?
  {
    forall key: string ensures key in Walk(t, "") <==> At(t, key).Stored? {
      if At(t, key).Stored? { WalkFinds(t, "", key); }
      if key in Walk(t, "") { WalkFindsOnlyStored(t, "", key); }
    }
  }
}
