/**
 * The store as its users see it: a partial map from path strings to objects, and a set of bucket paths.
 * The bucket tree simulates this machine step for step, and nothing of the tree is lost in the view.
 */
module FlatStore {
  import opened Types
  import opened Paths
  import opened Tree
  import opened Updates

  ghost function At(t: Tree, key: string): Entry {
    Look(t, Components(key))
  }

  ghost function ObjectAt(t: Tree, key: string): KVObject
    requires At(t, key).Stored?
  {
    At(t, key).obj
  }

  datatype Flat = Flat(values: imap<string, KVObject>, buckets: iset<string>)

  ghost function View(t: Tree): Flat {
    Flat(imap k: string | At(t, k).Stored? :: ObjectAt(t, k), iset k: string | At(t, k).Directory?)
  }

  ghost function ValueOf(values: imap<string, KVObject>, k: string): KVObject
    requires k in values
  {
    values[k]
  }

  /** The machine on strings alone. */
  ghost function Step(f: Flat, u: Update): Flat {
    match u
    case PutKey(key, obj) =>
      if "" in Components(key) || key in f.buckets || (exists k :: k in f.values && k + "/" <= key) then f
      else Flat(f.values[key := obj], f.buckets + iset k: string | k + "/" <= key)
    case DeleteKey(key) =>
      Flat(imap k | k in f.values && k != key :: ValueOf(f.values, k), f.buckets)
    case DeleteBucket(key) =>
      if key !in f.buckets then f
      else Flat(imap k | k in f.values && !SlashPrefix(key, k) :: ValueOf(f.values, k),
                iset k | k in f.buckets && !SlashPrefix(key, k))
    case _ => f
  }

  lemma ProperPrefix(k: string, key: string)
    ensures Components(k) < Components(key) <==> k + "/" <= key
  {
    PrefixIsSlashPrefix(k, key);
    if Components(k) == Components(key) { ComponentsInjective(k, key); }
  }

  /** A proper non-empty prefix of a component list is the component list of a string. */
  lemma PrefixString(r: Path, key: string) returns (k: string)
    requires r != [] && r <= Components(key)
    ensures Components(k) == r
  {
    k := Join(r);
    assert forall c :: c in r ==> c in Components(key);
    ComponentsJoin(r);
  }

  lemma PutGuard(t: Tree, key: string)
    requires t.Bucket?
    ensures PutOk(t, Components(key)) <==>
            !("" in Components(key) || key in View(t).buckets || exists k :: k in View(t).values && k + "/" <= key)
  {
    var p := Components(key);
    if r: Path :| r < p && Look(t, r).Stored? {
      var k := PrefixString(r, key);
      ProperPrefix(k, key);
      assert k in View(t).values;
    }
    if k :| k in View(t).values && k + "/" <= key {
      ProperPrefix(k, key);
      assert Look(t, Components(k)).Stored?;
    }
  }

  lemma PutAt(t: Tree, u: Update, k: string)
    requires u.PutKey?
    ensures At(Apply(t, u), k) ==
            if !Fires(t, u) then At(t, k)
            else if k == u.key then Stored(u.value)
            else if k + "/" <= u.key then Directory
            else At(t, k)
  {
    LookApply(t, u, Components(k));
    ProperPrefix(k, u.key);
    if Components(k) == Components(u.key) { ComponentsInjective(k, u.key); }
  }

  lemma DeleteAt(t: Tree, u: Update, k: string)
    requires u.DeleteKey? || u.DeleteBucket?
    ensures At(Apply(t, u), k) == if Fires(t, u) && SlashPrefix(u.key, k) then Absent else At(t, k)
    ensures u.DeleteKey? && Fires(t, u) && k != u.key && SlashPrefix(u.key, k) ==> At(t, k) == Absent
  {
    LookApply(t, u, Components(k));
    PrefixIsSlashPrefix(u.key, k);
    ProperPrefix(u.key, k);
    if u.DeleteKey? && Fires(t, u) && k != u.key && SlashPrefix(u.key, k) {
      NothingBelow(t, Components(u.key), Components(k));
    }
  }

  /** What a flat store shows at a path. */
  ghost function EntryOf(f: Flat, k: string): Entry {
    if k in f.values then Stored(f.values[k]) else if k in f.buckets then Directory else Absent
  }

  lemma ViewIs(t: Tree, f: Flat)
    requires forall k :: At(t, k) == EntryOf(f, k)
    requires f.values.Keys !! f.buckets
    ensures View(t) == f
  {
    forall k: string
      ensures k in View(t).values <==> k in f.values
      ensures k in f.values ==> View(t).values[k] == f.values[k]
      ensures k in View(t).buckets <==> k in f.buckets
    {
      assert At(t, k) == EntryOf(f, k);
    }
    assert View(t).values == f.values;
    assert View(t).buckets == f.buckets;
  }

  /** One update on the tree is one step of the flat machine, failing updates included. */
  lemma TreeRefinesFlat(t: Tree, u: Update)
    requires t.Bucket?
    ensures View(Apply(t, u)) == Step(View(t), u)
  {
    if u.PutKey? {
      PutGuard(t, u.key);
      forall k ensures At(Apply(t, u), k) == EntryOf(Step(View(t), u), k) { PutAt(t, u, k); }
      ViewIs(Apply(t, u), Step(View(t), u));
    } else if u.DeleteKey? || u.DeleteBucket? {
      forall k ensures At(Apply(t, u), k) == EntryOf(Step(View(t), u), k) { DeleteAt(t, u, k); }
      ViewIs(Apply(t, u), Step(View(t), u));
    }
  }

  /** Stored paths are slash-prefix-free, and no path is both a value and a bucket. */
  lemma StoredPathsPrefixFree(t: Tree, k: string, l: string)
    requires k in View(t).values
    ensures k !in View(t).buckets
    ensures l in View(t).values && SlashPrefix(k, l) ==> k == l
    ensures l in View(t).buckets ==> !SlashPrefix(k, l)
  {
    PrefixIsSlashPrefix(k, l);
    if SlashPrefix(k, l) && k != l && Look(t, Components(l)) != Absent {
      ProperPrefix(k, l);
      AboveIsDirectory(t, Components(k), Components(l));
    }
  }

  /** In a well-formed tree a stored object can always be replaced. */
  lemma StoredCanBePut(t: Tree, key: string)
    requires WellFormed(t) && At(t, key).Stored?
    ensures PutOk(t, Components(key))
  {
    var p := Components(key);
    forall r | r < p ensures !Look(t, r).Stored? { AboveIsDirectory(t, r, p); }
  }

  /** A path with a trailing slash names nothing in the store: no deletion through it removes anything. */
  lemma TrailingSlashDeletesNothing(t: Tree, dir: string)
    requires WellFormed(t)
    ensures Apply(t, DeleteBucket(dir + "/")) == t && Apply(t, DeleteKey(dir + "/")) == t
  {
    var p := Components(dir + "/");
    ComponentsAppend(dir, "");
    assert dir + "/" + "" == dir + "/";
    assert p == Components(dir) + [""];
    assert p[|p| - 1] == "";
    assert Look(t, p) == Absent;
  }

  /** Two well-formed trees with the same values and buckets are the same tree. */
  lemma ViewDeterminesTree(t: Tree, u: Tree)
    requires WellFormed(t) && WellFormed(u) && View(t) == View(u)
    ensures t == u
  {
    forall q ensures Look(t, q) == Look(u, q) {
      if q != [] && (Look(t, q) != Absent || Look(u, q) != Absent) {
        assert forall c :: c in q ==> NoSlash(c);
        ComponentsJoin(q);
        var k := Join(q);
        assert k in View(t).values <==> k in View(u).values;
        assert k in View(t).buckets <==> k in View(u).buckets;
        assert k in View(t).values ==> View(t).values[k] == View(u).values[k];
      }
    }
    SameView(t, u);
  }
}
