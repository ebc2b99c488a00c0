/**
 * The store itself: path splitting, the component walk inside a transaction, commit or roll back, and emission.
 * Each method is tied to the tree functions that the other modules reason about.
 */
module KV {
  import opened Types
  import opened Paths
  import opened Tree
  import opened Updates
  import opened FlatStore
  import opened Replay
  import opened Operations
  import opened Enumeration
  import opened Counting
  import opened Cursor
  import opened Cluster
  import opened Bolt

  /** The sending side after broadcasting these updates, one after the other. */
  function Outgoing(o: Outbox, us: seq<Update>): Outbox
    decreases |us|
  {
    if us == [] then o else Outgoing(AfterEmit(o, "update", KVPayload(us[0]), "KVUpdate"), us[1..])
  }

  /** The same, given whether the node is in development mode, where nothing is sent. */
  function SendAll(dev: bool, o: Outbox, us: seq<Update>): Outbox {
    if dev then o else Outgoing(o, us)
  }

  lemma {:induction false} OutgoingAppend(o: Outbox, us: seq<Update>, ws: seq<Update>)
    ensures Outgoing(o, us + ws) == Outgoing(Outgoing(o, us), ws)
    decreases |us|
  {
    if us == [] {
      assert us + ws == ws;
    } else {
      assert (us + ws)[0] == us[0] && (us + ws)[1..] == us[1..] + ws;
      OutgoingAppend(AfterEmit(o, "update", KVPayload(us[0]), "KVUpdate"), us[1..], ws);
    }
  }

  lemma OutgoingOne(o: Outbox, u: Update)
    ensures Outgoing(o, [u]) == AfterEmit(o, "update", KVPayload(u), "KVUpdate")
  {
    assert [u][1..] == [];
    assert Outgoing(AfterEmit(o, "update", KVPayload(u), "KVUpdate"), []) ==
           AfterEmit(o, "update", KVPayload(u), "KVUpdate");
  }

  lemma OutgoingLast(o: Outbox, us: seq<Update>, u: Update)
    ensures Outgoing(o, us + [u]) == AfterEmit(Outgoing(o, us), "update", KVPayload(u), "KVUpdate")
  {
    OutgoingAppend(o, us, [u]);
    OutgoingOne(Outgoing(o, us), u);
  }

  /**
   * A list of updates is sent one after the other: each more makes one broadcast of itself more, with the next epoch.
   * In development mode nothing is sent.
   */
  lemma SentOneByOne(dev: bool, o: Outbox, us: seq<Update>, u: Update)
    ensures SendAll(dev, o, []) == o
    ensures dev ==> SendAll(dev, o, us) == o
    ensures !dev ==>
              Broadcasted(SendAll(dev, o, us), SendAll(dev, o, us + [u]), "update", KVPayload(u), "KVUpdate")
  {
    OutgoingLast(o, us, u);
    AfterEmitBroadcasts(Outgoing(o, us), "update", KVPayload(u), "KVUpdate");
  }

  /** The tree between the steps of a put's walk: the buckets down to `at` exist, all else is as before. */
  ghost predicate Opened(t: Tree, before: Tree, at: Path) {
    forall q :: Look(t, q) == if q <= at then Directory else Look(before, q)
  }

  /** The loop that looks for a lock by its id. */
  method FindLock(locks: seq<Lock>, id: string) returns (index: int)
    ensures index == LockIndex(locks, id)
  {
    index := -1;
    for idx := 0 to |locks|
      invariant index == -1
      invariant forall j :: 0 <= j < idx ==> locks[j].lockID != id
    {
      if locks[idx].lockID == id {
        index := idx;
        break;
      }
    }
  }

  function MarkedName(n: Tree, k: string): string
    requires n.Bucket? && k in n.kids
  {
    if n.kids[k].Bucket? then k + "/" else k
  }

  /** `keys` are the marked forms of `names`, which are all names in the bucket in the cursor's order, each once. */
  ghost predicate ListingOf(bkt: Tree, keys: seq<string>, names: seq<string>)
    requires bkt.Bucket?
  {
    && |keys| == |names| && Increasing(names)
    && (forall n :: n in names <==> n in bkt.kids)
    && (forall i :: 0 <= i < |names| ==> names[i] in bkt.kids && keys[i] == MarkedName(bkt, names[i]))
  }

  /** `keys` lists the bucket: all its names in the cursor's order, each once, marked if it is a sub-bucket. */
  ghost predicate Lists(bkt: Tree, keys: seq<string>)
    requires bkt.Bucket?
  {
    exists names :: ListingOf(bkt, keys, names)
  }

  lemma MarkedNamesDiffer(n: Tree, k: string, l: string)
    requires n.Bucket? && k in n.kids && l in n.kids && NoSlash(k) && NoSlash(l)
    requires MarkedName(n, k) == MarkedName(n, l)
    ensures k == l
  {
    if n.kids[k].Bucket? { assert MarkedName(n, k)[|k|] == '/'; }
    if n.kids[l].Bucket? { assert MarkedName(n, l)[|l|] == '/'; }
    assert k == MarkedName(n, k)[..|k|] && l == MarkedName(n, l)[..|l|];
  }

  lemma ListingIsMarked(bkt: Tree, keys: seq<string>, names: seq<string>)
    requires bkt.Bucket? && forall k :: k in bkt.kids ==> NoSlash(k)
    requires ListingOf(bkt, keys, names)
    ensures Distinct(keys)
    ensures forall key :: key in keys <==> key in Marked(bkt)
  {
    forall i, j | 0 <= i < j < |keys| ensures keys[i] != keys[j] {
      if keys[i] == keys[j] {
        MarkedNamesDiffer(bkt, names[i], names[j]);
        BeforeIsTotal(names[i], names[j]);
      }
    }
    forall key | key in Marked(bkt) ensures key in keys {
      var n :| n in bkt.kids && key == MarkedName(bkt, n);
      var i :| 0 <= i < |names| && names[i] == n;
      assert keys[i] == key;
    }
  }

  /** The cursor loop of a listing. */
  method ListNames(bkt: Tree) returns (keys: seq<string>)
    requires bkt.Bucket?
    ensures Lists(bkt, keys)
  {
    keys := [];
    ghost var names: seq<string> := [];
    var rest := bkt.kids.Keys;
    while rest != {}
      invariant rest <= bkt.kids.Keys
      invariant |keys| == |names| && Increasing(names)
      invariant forall n :: n in names <==> n in bkt.kids && n !in rest
      invariant forall n, m :: n in names && m in rest ==> Before(n, m)
      invariant forall i :: 0 <= i < |names| ==> names[i] in bkt.kids && keys[i] == MarkedName(bkt, names[i])
    {
      ghost var least := LeastName(rest);
      var ea :| ea in rest && forall n :: n in rest && n != ea ==> Before(ea, n);
      var suffix := if bkt.kids[ea].Bucket? then "/" else "";
      assert ea + suffix == MarkedName(bkt, ea);
      keys, names := keys + [ea + suffix], names + [ea];
      rest := rest - {ea};
    }
    assert ListingOf(bkt, keys, names);
  }

  lemma NodeNamesClean(t: Tree, p: Path)
    requires WellFormed(t) && Look(t, p).Directory?
    ensures NodeAt(t, p).Bucket?
    ensures forall k :: k in NodeAt(t, p).kids ==> k != "" && NoSlash(k)
  {
    NodeAtIsBucket(t, p);
    forall k | k in NodeAt(t, p).kids ensures k != "" && NoSlash(k) {
      LookFromNode(t, p, [k]);
      assert Look(NodeAt(t, p), [k]) != Absent;
      assert (p + [k])[|p|] == k;
    }
  }

  lemma NotFoundBelow(t: Tree, r: Path, buckets: Path)
    requires r <= buckets && Look(t, r) != Directory
    ensures Look(t, buckets) != Directory
  {
    PrefixOrEqual(r, buckets);
    if r < buckets { NothingBelow(t, r, buckets); }
  }

  /** Creating the next bucket extends the opened path by one name. */
  lemma OpenedStep(before: Tree, t: Tree, t': Tree, bkt: Path, b: string)
    requires Opened(t, before, bkt)
    requires !Look(t, bkt + [b]).Stored?
    requires t' == if Look(t, bkt + [b]) == Directory then t else Graft(t, bkt + [b], EMPTY)
    ensures Opened(t', before, bkt + [b])
  {
    var at := bkt + [b];
    forall q ensures Look(t', q) == if q <= at then Directory else Look(before, q) {
      if q <= at {
        PrefixOrEqual(q, at);
        if q < at { assert q <= bkt; }
      }
      if Look(t, at) == Absent {
        LookGraft(t, at, EMPTY, q);
        if at <= q {
          LookEmpty(q[|at|..]);
          PrefixOrEqual(at, q);
          if at < q { NothingBelow(t, at, q); }
        }
      }
    }
  }

  /** Putting the value into the opened bucket gives the tree of the whole put. */
  lemma OpenedPut(before: Tree, walked: Tree, b: Path, k: string, u: Update)
    requires u.PutKey? && Target(u) == b + [k] && Fires(before, u) && Opened(walked, before, b)
    ensures Graft(walked, b + [k], Leaf(u.value)) == Apply(before, u)
  {
    var p := b + [k];
    var t := Graft(walked, p, Leaf(u.value));
    forall q ensures Look(t, q) == Look(Apply(before, u), q) {
      LookGraft(walked, p, Leaf(u.value), q);
      LookGraft(before, p, Leaf(u.value), q);
      if q <= b { assert q < p; }
    }
    SameView(t, Apply(before, u));
  }

  lemma RunNext(t: Tree, us: seq<Update>, i: nat)
    requires i < |us|
    ensures Run(t, us[..i + 1]) == Apply(Run(t, us[..i]), us[i])
  {
    assert us[..i + 1] == us[..i] + [us[i]];
    RunAppend(t, us[..i], [us[i]]);
    assert [us[i]][1..] == [];
    assert Run(Apply(Run(t, us[..i]), us[i]), []) == Apply(Run(t, us[..i]), us[i]);
  }

  class KV {
    var root: Tree
    const cluster: Cluster

    ghost predicate Valid()
      reads this
    {
      WellFormed(root)
    }

    /** Opens the database file: the root bucket is created if there is none, and kept as it is otherwise. */
    constructor (cluster: Cluster, file: Option<Tree>)
      requires file.Some? ==> WellFormed(file.value)
      ensures Valid() && this.cluster == cluster
      ensures root == if file.Some? then file.value else EMPTY
    {
      root, this.cluster := if file.Some? then file.value else EMPTY, cluster;
      new;
      EmptyIsWellFormed();
    }

    ghost function Sending(): Outbox
      reads cluster
    {
      cluster.Sending()
    }

    ghost function SendingAfter(us: seq<Update>): Outbox
      reads cluster
    {
      SendAll(cluster.dev, Sending(), us)
    }

    method EmitEvent(u: Update)
      modifies cluster
      ensures Sending() == old(SendingAfter([u]))
      ensures if cluster.dev then Sending() == old(Sending())
              else Broadcasted(old(Sending()), Sending(), "update", KVPayload(u), "KVUpdate")
    {
      OutgoingOne(Sending(), u);
      cluster.Emit("update", KVPayload(u), "KVUpdate");
    }

    /**
     * Walks down the bucket names, creating buckets on the way if asked to. `p` is the whole path walked.
     */
    method GetBuckets(tx: Tx, buckets: seq<string>, create: bool, ghost p: Path) returns (bkt: Path, err: Status)
      requires tx.root.Bucket?
      requires |p| == |buckets| + 1 && buckets == p[..|buckets|]
      modifies tx
      ensures !create ==> tx.root == old(tx.root)
      ensures !create && err.Ok? ==> bkt == buckets && tx.IsBucket(bkt)
      ensures !create && err.Err? ==>
                Look(tx.root, buckets) != Directory && err == Err(BucketMissing(FirstMissing(tx.root, p, 0)))
      ensures create && err.Ok? ==>
                && bkt == buckets && Opened(tx.root, old(tx.root), bkt)
                && PutStatus(old(tx.root), p) == PutStatus(old(tx.root), p, |buckets|)
      ensures create && err.Err? ==> err == PutStatus(old(tx.root), p)
    {
      ghost var before := tx.root;
      bkt := [];
      var i := 0;
      assert Opened(before, before, []);
      while i < |buckets|
        invariant 0 <= i <= |buckets| && bkt == buckets[..i] == p[..i]
        invariant !create ==> tx.root == before && tx.IsBucket(bkt)
        invariant !create ==> FirstMissing(before, p, 0) == FirstMissing(before, p, i)
        invariant create ==> Opened(tx.root, before, bkt) && PutStatus(before, p) == PutStatus(before, p, i)
      {
        var b := buckets[i];
        assert p[..i + 1] == bkt + [b];
        if create {
          assert Look(tx.root, bkt) == Directory;
          ghost var t := tx.root;
          var st := tx.CreateBucketIfNotExists(bkt, b);
          if st.Err? { return bkt, st; }
          OpenedStep(before, t, tx.root, bkt, b);
        } else {
          var found := tx.Bucket(bkt, b);
          if !found {
            NotFoundBelow(before, p[..i + 1], buckets);
            return [], Err(BucketMissing(b));
          }
        }
        bkt := bkt + [b];
        i := i + 1;
      }
      return bkt, Ok;
    }

    /** Stores an object. The transaction is dropped, buckets created on the way and all, when any step fails. */
    method PutObject(key: string, value: KVObject, emit: bool) returns (err: Status)
      requires Valid()
      modifies this, cluster
      ensures Valid()
      ensures err == PutStatus(old(root), Components(key))
      ensures err.Ok? <==> PutOk(old(root), Components(key))
      ensures root == Apply(old(root), PutKey(key, value))
      ensures Sending() == if emit then old(SendingAfter(Emitted(root, PutKey(key, value)))) else old(Sending())
    {
      ghost var u := PutKey(key, value);
      ghost var before := root;
      PutSucceedsExactly(root, Components(key));
      ApplyKeepsWellFormed(root, u);
      var buckets, k := ParsePath(key);
      var tx := new Tx(root);
      var b;
      b, err := GetBuckets(tx, buckets, true, Components(key));
      if err.Err? { return; }
      assert tx.IsBucket(b) && b + [k] == Components(key);
      assert Look(tx.root, b + [k]) == Look(before, b + [k]);
      ghost var walked := tx.root;
      err := tx.Put(b, k, value);
      if err.Err? { return; }
      OpenedPut(before, walked, b, k, u);
      root := tx.root;
      if emit { EmitEvent(PutKey(key, value)); }
    }

    /** A put by a client: the object is new and carries no locks. */
    method Put(key: string, value: string, secret: bool, now: int, plain: bool, emit: bool) returns (err: Status)
      requires Valid()
      modifies this, cluster
      ensures Valid()
      ensures var op := DoPut(key, KVObject(now, secret, value, [], plain));
              && err == PutStatus(old(root), Components(key))
              && root == Local(old(root), op)
              && Sending() == if emit then old(SendingAfter(Sent(root, op))) else old(Sending())
    {
      err := PutObject(key, KVObject(now, secret, value, [], plain), emit);
    }

    method GetObject(key: string) returns (obj: Option<KVObject>)
      requires Valid()
      ensures obj == if At(root, key).Stored? then Some(At(root, key).obj) else None
    {
      var buckets, k := ParsePath(key);
      var tx := new Tx(root);
      var b, err := GetBuckets(tx, buckets, false, Components(key));
      assert buckets + [k] == Components(key);
      if err.Err? {
        LookAppend(root, buckets, k);
        return None;
      }
      obj := tx.Get(b, k);
    }

    /**
     * Deletes an object. With emission the deletion is broadcast even when it failed here, and that it was
     * broadcast is all the caller hears.
     */
    method DeleteKey(key: string, emit: bool) returns (err: Status)
      requires Valid()
      modifies this, cluster
      ensures Valid()
      ensures root == Apply(old(root), Update.DeleteKey(key))
      ensures err == if emit then Ok else DeleteKeyStatus(old(root), Components(key))
      ensures Sending() == if emit then old(SendingAfter([Update.DeleteKey(key)])) else old(Sending())
    {
      ApplyKeepsWellFormed(root, Update.DeleteKey(key));
      var buckets, k := ParsePath(key);
      var tx := new Tx(root);
      var b;
      b, err := GetBuckets(tx, buckets, false, Components(key));
      assert buckets + [k] == Components(key);
      assert Components(key)[..|buckets|] == buckets;
      LookAppend(root, buckets, k);
      if err.Ok? {
        err := tx.Delete(b, k);
        if err.Ok? { root := tx.root; }
      }
      if emit {
        EmitEvent(Update.DeleteKey(key));
        err := Ok;
      }
    }

    /** Deletes a bucket with all it holds; emits as `DeleteKey` does. */
    method DeleteBucket(key: string, emit: bool) returns (err: Status)
      requires Valid()
      modifies this, cluster
      ensures Valid()
      ensures root == Apply(old(root), Update.DeleteBucket(key))
      ensures err == if emit then Ok else DeleteBucketStatus(old(root), Components(key))
      ensures Sending() == if emit then old(SendingAfter([Update.DeleteBucket(key)])) else old(Sending())
    {
      ApplyKeepsWellFormed(root, Update.DeleteBucket(key));
      var buckets, k := ParsePath(key);
      var tx := new Tx(root);
      var b;
      b, err := GetBuckets(tx, buckets, false, Components(key));
      assert buckets + [k] == Components(key);
      assert Components(key)[..|buckets|] == buckets;
      LookAppend(root, buckets, k);
      if err.Ok? {
        err := tx.DeleteBucket(b, k);
        if err.Ok? { root := tx.root; }
      }
      if emit {
        EmitEvent(Update.DeleteBucket(key));
        err := Ok;
      }
    }

    /**
     * The names in a bucket in the cursor's order, sub-buckets marked with a slash. A trailing slash of `key` adds
     * nothing. The last name of `key`, if there is one, must be a bucket when the ones before it are.
     */
    method GetKeys(key: string) returns (keys: seq<string>, err: Status)
      requires Valid()
      requires Last(key) != "" && Look(root, Front(key)).Directory? ==> Look(root, Components(key)).Directory?
      ensures err.Ok? <==> Look(root, Front(key)).Directory?
      ensures err.Ok? ==>
                var at := if Last(key) == "" then Front(key) else Components(key);
                && Look(root, at).Directory? && NodeAt(root, at).Bucket?
                && Lists(NodeAt(root, at), keys)
                && Distinct(keys)
                && (forall name :: name in keys <==> name in Marked(NodeAt(root, at)))
      ensures IsDir(root, key) ==> forall name :: name in keys <==> name in KeysAt(root, key)
    {
      var buckets, k := ParsePath(key);
      assert buckets + [k] == Components(key) && Front(key) == buckets && Last(key) == k;
      var tx := new Tx(root);
      var b;
      b, err := GetBuckets(tx, buckets, false, Components(key));
      keys := [];
      if err.Err? { return; }
      var dir := if k == "" then b else b + [k];
      NodeNamesClean(root, dir);
      keys := ListNames(NodeAt(root, dir));
      ghost var names :| ListingOf(NodeAt(root, dir), keys, names);
      ListingIsMarked(NodeAt(root, dir), keys, names);
    }

    /** The whole tree as nested maps. */
    method GetTree() returns (tree: Json)
      requires Valid()
      ensures tree == Rendered(root)
    {
      tree := EnumerateBucket(root);
    }

    /** Draws up a lock, adds it to an object and always broadcasts the object. */
    method Lock(key: string, d: LockDraw) returns (l: Types.Lock, err: Status)
      requires Valid()
      modifies this, cluster
      ensures Valid()
      ensures l == Types.Lock(key, "kv", d.id, d.machine, cluster.addr, d.claim, d.base + 300_000_000_000)
      ensures err.Ok? <==> At(old(root), key).Stored?
      ensures root == Local(old(root), DoLock(key, l))
      ensures Sending() == old(SendingAfter(Sent(root, DoLock(key, l))))
    {
      l := NewLock(key, cluster.addr, d);
      var obj := GetObject(key);
      if obj.None? { return l, Err(NoObject); }
      StoredCanBePut(root, key);
      err := PutObject(key, AddLock(obj.value, l), true);
    }

    /**
     * Removes a lock from an object and always broadcasts the object. The lock must be there, and the root
     * bucket it names must exist.
     */
    method Unlock(lock: Types.Lock) returns (err: Status)
      requires Valid() && Allowed(root, DoUnlock(lock))
      modifies this, cluster
      ensures Valid()
      ensures err.Ok? <==> Finds(old(root), lock)
      ensures root == Local(old(root), DoUnlock(lock))
      ensures Sending() == old(SendingAfter(Sent(root, DoUnlock(lock))))
    {
      if lock.prefix != KV_BUCKET { return Err(NoObject); }
      var got := GetObject(lock.key);
      if got.None? { return Err(NoObject); }
      StoredCanBePut(root, lock.key);
      var obj := got.value;
      var index := FindLock(obj.locks, lock.lockID);
      err := PutObject(lock.key, obj.(locks := obj.locks[..index] + obj.locks[index + 1..]), true);
    }

    /** The lock drawn up for an update, in case it is a lock creation. */
    ghost function Drawn(u: Update, d: LockDraw): Types.Lock {
      NewLock(if u.LockCreate? then u.key else "", cluster.addr, d)
    }

    /** Takes an update from another node. */
    method HandleUpdate(u: Update, d: LockDraw) returns (err: Status)
      requires Valid() && Dispatch(root, u, Drawn(u, d)).Handled?
      modifies this, cluster
      ensures Valid()
      ensures u.LockCreate? ==>
                Drawn(u, d)
                == Types.Lock(u.key, "kv", d.id, d.machine, cluster.addr, d.claim, d.base + 300_000_000_000)
      ensures root == Dispatch(old(root), u, Drawn(u, d)).tree
      ensures Sending() == old(SendingAfter(Dispatch(root, u, Drawn(u, d)).sent))
      ensures match u
              case PutKey(key, _) => err == PutStatus(old(root), Components(key))
              case DeleteKey(key) => err == DeleteKeyStatus(old(root), Components(key))
              case DeleteBucket(key) => err == DeleteBucketStatus(old(root), Components(key))
              case LockCreate(key) => err.Ok? <==> At(old(root), key).Stored?
              case LockDelete(lock) => err.Ok? <==> Finds(old(root), lock)
              case Unknown => err == Ok
    {
      err := Ok;
      match u
      case PutKey(key, value) => err := PutObject(key, value, false);
      case DeleteKey(key) => err := this.DeleteKey(key, false);
      case DeleteBucket(key) => err := this.DeleteBucket(key, false);
      case LockCreate(key) =>
        var _, status := this.Lock(key, d);
        err := status;
      case LockDelete(lock) => err := Unlock(lock);
      case Unknown =>
    }

    /** The update loop over a queue of key and bucket updates: errors are dropped, nothing is sent. */
    method WorkOff(queue: seq<Update>)
      requires Valid()
      requires forall u :: u in queue ==> u.PutKey? || u.DeleteKey? || u.DeleteBucket?
      modifies this, cluster
      ensures Valid()
      ensures root == Run(old(root), queue)
      ensures Sending() == old(Sending())
    {
      for i := 0 to |queue|
        invariant Valid()
        invariant root == Run(old(root), queue[..i])
        invariant Sending() == old(Sending())
      {
        assert queue[i] in queue;
        RunNext(old(root), queue, i);
        var _ := HandleUpdate(queue[i], LockDraw("", "", 0, 0));
      }
      assert queue[..|queue|] == queue;
    }
  }
}
