/**
 * The lock list of a stored object, over any sequential run of one node: the locks granted since the path was
 * last put, without those released since, in the order they were granted. If the object was there before the run
 * and was not put in it, the locks it had then come first.
 */
module LockHistory {
  import opened Types
  import opened Paths
  import opened Tree
  import opened Updates
  import opened FlatStore
  import opened Operations

  predicate Names(op: ClientOp, id: string) {
    (op.DoLock? && op.granted.lockID == id) || (op.DoUnlock? && op.lock.lockID == id)
  }

  predicate FreshAfter(ops: seq<ClientOp>, i: nat, j: nat)
    requires i < j < |ops|
  {
    ops[j].DoLock? ==> !Names(ops[i], ops[j].granted.lockID)
  }

  /** Lock ids are random: no operation names an id before it is granted. */
  ghost predicate FreshIds(ops: seq<ClientOp>) {
    forall i: nat, j: nat :: i < j < |ops| ==> FreshAfter(ops, i, j)
  }

  /** Clients store objects without locks. */
  predicate PutsUnlocked(ops: seq<ClientOp>) {
    forall i :: 0 <= i < |ops| && ops[i].DoPut? ==> ops[i].value.locks == []
  }

  function Granted(ops: seq<ClientOp>, key: string): seq<Lock> {
    if ops == [] then []
    else
      var op := ops[|ops| - 1];
      var before := Granted(ops[..|ops| - 1], key);
      if op.DoLock? && op.key == key then before + [op.granted] else before
  }

  /** An unlocking of the object at `key`. */
  predicate Unlocks(op: ClientOp, key: string) {
    op.DoUnlock? && op.lock.prefix == KV_BUCKET && op.lock.key == key
  }

  function Released(ops: seq<ClientOp>, key: string): set<string> {
    set i | 0 <= i < |ops| && Unlocks(ops[i], key) :: ops[i].lock.lockID
  }

  function Drop(locks: seq<Lock>, ids: set<string>): seq<Lock> {
    if locks == [] then []
    else if locks[0].lockID in ids then Drop(locks[1..], ids)
    else [locks[0]] + Drop(locks[1..], ids)
  }

  /** The locks on `key` there at first or granted by `ops`, and not released by `ops`, in grant order. */
  function Kept(first: seq<Lock>, ops: seq<ClientOp>, key: string): seq<Lock> {
    Drop(first, Released(ops, key)) + Drop(Granted(ops, key), Released(ops, key))
  }

  predicate DistinctIds(locks: seq<Lock>) {
    forall i, j :: 0 <= i < j < |locks| ==> locks[i].lockID != locks[j].lockID
  }

  predicate NotGranted(l: Lock, ops: seq<ClientOp>, i: nat)
    requires i < |ops|
  {
    ops[i].DoLock? ==> l.lockID != ops[i].granted.lockID
  }

  /** The locks there at first have ids of their own, which are not granted again. */
  ghost predicate FirstIds(first: seq<Lock>, ops: seq<ClientOp>) {
    DistinctIds(first) && forall l, i: nat :: l in first && i < |ops| ==> NotGranted(l, ops, i)
  }

  lemma {:induction false} GrantedComesFrom(ops: seq<ClientOp>, key: string, l: Lock) returns (i: nat)
    requires l in Granted(ops, key)
    ensures i < |ops| && ops[i].DoLock? && ops[i].granted == l
  {
    var n := |ops| - 1;
    if ops[n].DoLock? && ops[n].granted == l {
      i := n;
    } else {
      i := GrantedComesFrom(ops[..n], key, l);
    }
  }

  lemma FreshFront(ops: seq<ClientOp>, op: ClientOp)
    requires FreshIds(ops + [op])
    ensures FreshIds(ops)
  {
    var all := ops + [op];
    forall i: nat, j: nat | i < j < |ops| ensures FreshAfter(ops, i, j) {
      assert all[i] == ops[i] && all[j] == ops[j] && FreshAfter(all, i, j);
    }
  }

  lemma SuffixFresh(ops: seq<ClientOp>, s: nat)
    requires s <= |ops| && FreshIds(ops)
    ensures FreshIds(ops[s..])
  {
    var rest := ops[s..];
    forall i: nat, j: nat | i < j < |rest| ensures FreshAfter(rest, i, j) {
      assert rest[i] == ops[s + i] && rest[j] == ops[s + j] && FreshAfter(ops, s + i, s + j);
    }
  }

  lemma {:induction false} GrantedDistinct(ops: seq<ClientOp>, key: string)
    requires FreshIds(ops)
    ensures DistinctIds(Granted(ops, key))
  {
    if ops != [] {
      var n := |ops| - 1;
      assert ops == ops[..n] + [ops[n]];
      FreshFront(ops[..n], ops[n]);
      GrantedDistinct(ops[..n], key);
      forall l | l in Granted(ops[..n], key) && ops[n].DoLock? ensures l.lockID != ops[n].granted.lockID {
        var i := GrantedComesFrom(ops[..n], key, l);
        assert ops[..n][i] == ops[i] && FreshAfter(ops, i, n);
      }
    }
  }

  lemma FirstIdsFront(first: seq<Lock>, ops: seq<ClientOp>, op: ClientOp)
    requires FirstIds(first, ops + [op])
    ensures FirstIds(first, ops)
  {
    forall l, i: nat | l in first && i < |ops| ensures NotGranted(l, ops, i) {
      assert (ops + [op])[i] == ops[i] && NotGranted(l, ops + [op], i);
    }
  }

  lemma HeldDistinct(first: seq<Lock>, ops: seq<ClientOp>, key: string)
    requires FirstIds(first, ops) && FreshIds(ops)
    ensures DistinctIds(first + Granted(ops, key))
  {
    GrantedDistinct(ops, key);
    var granted := Granted(ops, key);
    forall i, j | 0 <= i < |first| && 0 <= j < |granted| ensures first[i].lockID != granted[j].lockID {
      var k := GrantedComesFrom(ops, key, granted[j]);
      assert first[i] in first && NotGranted(first[i], ops, k);
    }
  }

  lemma {:induction false} DropAppend(locks: seq<Lock>, more: seq<Lock>, ids: set<string>)
    ensures Drop(locks + more, ids) == Drop(locks, ids) + Drop(more, ids)
  {
    if locks == [] {
      assert locks + more == more;
    } else {
      assert (locks + more)[0] == locks[0] && (locks + more)[1..] == locks[1..] + more;
      DropAppend(locks[1..], more, ids);
      var dl, dm := Drop(locks[1..], ids), Drop(more, ids);
      assert [locks[0]] + (dl + dm) == ([locks[0]] + dl) + dm;
    }
  }

  lemma {:induction false} DropKeepsOnly(locks: seq<Lock>, ids: set<string>)
    ensures forall l :: l in Drop(locks, ids) ==> l in locks
  {
    if locks != [] {
      DropKeepsOnly(locks[1..], ids);
    }
  }

  lemma DistinctCons(l: Lock, rest: seq<Lock>)
    requires DistinctIds(rest) && forall m :: m in rest ==> m.lockID != l.lockID
    ensures DistinctIds([l] + rest)
  {
    var all := [l] + rest;
    forall i, j | 0 <= i < j < |all| ensures all[i].lockID != all[j].lockID {
      assert all[j] == rest[j - 1];
      if i > 0 { assert all[i] == rest[i - 1]; }
    }
  }

  lemma DistinctRest(locks: seq<Lock>)
    requires locks != [] && DistinctIds(locks)
    ensures DistinctIds(locks[1..]) && forall m :: m in locks[1..] ==> m.lockID != locks[0].lockID
  {
    var rest := locks[1..];
    forall m | m in rest ensures m.lockID != locks[0].lockID {
      var j :| 0 <= j < |rest| && rest[j] == m;
      assert locks[j + 1] == m;
    }
  }

  lemma {:induction false} DropKeepsDistinct(locks: seq<Lock>, ids: set<string>)
    requires DistinctIds(locks)
    ensures DistinctIds(Drop(locks, ids))
  {
    if locks != [] {
      DistinctRest(locks);
      DropKeepsDistinct(locks[1..], ids);
      DropKeepsOnly(locks[1..], ids);
      DistinctCons(locks[0], Drop(locks[1..], ids));
    }
  }

  lemma {:induction false} DropMore(locks: seq<Lock>, ids: set<string>, id: string)
    ensures Drop(locks, ids + {id}) == Drop(Drop(locks, ids), {id})
  {
    if locks != [] {
      DropMore(locks[1..], ids, id);
      var kept := if locks[0].lockID in ids then [] else [locks[0]];
      DropAppend(kept, Drop(locks[1..], ids), {id});
    }
  }

  lemma {:induction false} DropNone(locks: seq<Lock>, id: string)
    requires forall l :: l in locks ==> l.lockID != id
    ensures Drop(locks, {id}) == locks
  {
    if locks != [] {
      assert locks[0] in locks;
      DropNone(locks[1..], id);
    }
  }

  /** Removing the first lock with an id removes the id, when no two locks share one. */
  lemma {:induction false} RemoveIsDrop(locks: seq<Lock>, i: nat)
    requires DistinctIds(locks) && i < |locks|
    ensures locks[..i] + locks[i + 1..] == Drop(locks, {locks[i].lockID})
  {
    var id, rest := locks[i].lockID, locks[1..];
    if i == 0 {
      assert forall l :: l in rest ==> l.lockID != id;
      DropNone(rest, id);
      assert locks[..0] + rest == rest;
    } else {
      RemoveIsDrop(rest, i - 1);
      assert locks[..i] + locks[i + 1..] == [locks[0]] + (rest[..i - 1] + rest[i..]);
    }
  }

  lemma KeptGrant(first: seq<Lock>, ops: seq<ClientOp>, key: string, l: Lock)
    requires FreshIds(ops + [DoLock(key, l)])
    ensures Kept(first, ops + [DoLock(key, l)], key) == Kept(first, ops, key) + [l]
  {
    var ops' := ops + [DoLock(key, l)];
    assert ops'[..|ops|] == ops;
    assert Released(ops', key) == Released(ops, key);
    forall i: nat | i < |ops| && Unlocks(ops[i], key) ensures ops[i].lock.lockID != l.lockID {
      assert ops'[i] == ops[i] && FreshAfter(ops', i, |ops|);
    }
    DropAppend(Granted(ops, key), [l], Released(ops, key));
    var a, b := Drop(first, Released(ops, key)), Drop(Granted(ops, key), Released(ops, key));
    assert a + (b + [l]) == (a + b) + [l];
  }

  lemma KeptRelease(first: seq<Lock>, ops: seq<ClientOp>, lock: Lock)
    requires lock.prefix == KV_BUCKET
    ensures Kept(first, ops + [DoUnlock(lock)], lock.key) == Drop(Kept(first, ops, lock.key), {lock.lockID})
  {
    var ops' := ops + [DoUnlock(lock)];
    assert ops'[..|ops|] == ops;
    assert ops'[|ops|] == DoUnlock(lock);
    assert Released(ops', lock.key) == Released(ops, lock.key) + {lock.lockID};
    var granted, released := Granted(ops, lock.key), Released(ops, lock.key);
    DropMore(first, released, lock.lockID);
    DropMore(granted, released, lock.lockID);
    DropAppend(Drop(first, released), Drop(granted, released), {lock.lockID});
  }

  lemma KeptOther(first: seq<Lock>, ops: seq<ClientOp>, op: ClientOp, key: string)
    requires op.DoLock? ==> op.key != key
    requires !Unlocks(op, key)
    ensures Kept(first, ops + [op], key) == Kept(first, ops, key)
  {
    assert (ops + [op])[..|ops|] == ops;
    assert Released(ops + [op], key) == Released(ops, key);
  }

  lemma LocalKeepsWellFormed(t: Tree, op: ClientOp)
    requires WellFormed(t) && Allowed(t, op)
    ensures WellFormed(Local(t, op))
  {
    var u := Effect(t, op);
    if u.Some? { ApplyKeepsWellFormed(t, u.value); }
  }

  /** An operation either leaves the object at `key` alone, or removes it, or is a put, lock or unlock of it. */
  lemma ObjectAfter(t: Tree, op: ClientOp, key: string)
    requires WellFormed(t) && Allowed(t, op) && At(Local(t, op), key).Stored?
    ensures var before, after := At(t, key), At(Local(t, op), key);
            if op.DoPut? && op.key == key && PutOk(t, Components(key)) then after == Stored(op.value)
            else if op.DoLock? && op.key == key then before.Stored? && after == Stored(AddLock(before.obj, op.granted))
            else if Unlocks(op, key) then
              before.Stored? && LockIndex(before.obj.locks, op.lock.lockID) >= 0
              && after == Stored(RemoveLock(before.obj, op.lock.lockID))
            else after == before
  {
    var u := Effect(t, op);
    if u.Some? {
      LookApply(t, u.value, Components(key));
      if u.value.PutKey? {
        if Components(u.value.key) == Components(key) { ComponentsInjective(u.value.key, key); }
        if (op.DoLock? || op.DoUnlock?) && u.value.key == key { StoredCanBePut(t, key); }
      }
    }
  }

  ghost predicate Succeeds(t: Tree, ops: seq<ClientOp>, key: string, i: nat)
    requires i < |ops|
  {
    && ops[i].DoPut? && ops[i].key == key
    && AllAllowed(t, ops[..i]) && PutOk(LocalRun(t, ops[..i]), Components(key))
  }

  /**
   * The first `k` operations end with the last put of `key` that went through, or `k` is 0 and `key` was stored
   * before the run and not put in it.
   */
  ghost predicate LastPut(t: Tree, ops: seq<ClientOp>, key: string, k: nat)
    requires AllAllowed(t, ops)
  {
    && k <= |ops| && (if k == 0 then At(t, key).Stored? else Succeeds(t, ops, key, k - 1))
    && forall i :: k <= i < |ops| ==> !Succeeds(t, ops, key, i)
  }

  /** The object as it was last put, or as it was before the run. */
  ghost function Origin(t: Tree, ops: seq<ClientOp>, key: string, k: nat): KVObject
    requires AllAllowed(t, ops) && LastPut(t, ops, key, k)
  {
    if k == 0 then At(t, key).obj else ops[k - 1].value
  }

  /** The object `o` with the locks it had and those that `ops` grant, without those that `ops` release. */
  ghost function Since(o: KVObject, ops: seq<ClientOp>, key: string): KVObject {
    o.(locks := Kept(o.locks, ops, key))
  }

  lemma {:induction false} AllowedFront(t: Tree, ops: seq<ClientOp>, n: nat)
    requires n <= |ops| && AllAllowed(t, ops)
    ensures AllAllowed(t, ops[..n])
    ensures n < |ops| ==> Allowed(LocalRun(t, ops[..n]), ops[n])
    decreases n
  {
    if n > 0 {
      AllowedFront(Local(t, ops[0]), ops[1..], n - 1);
      assert ops[1..][..n - 1] == ops[..n][1..];
    }
  }

  lemma {:induction false} RunsStayWellFormed(t: Tree, ops: seq<ClientOp>)
    requires WellFormed(t) && AllAllowed(t, ops)
    ensures WellFormed(LocalRun(t, ops))
    decreases |ops|
  {
    if ops != [] {
      LocalKeepsWellFormed(t, ops[0]);
      RunsStayWellFormed(Local(t, ops[0]), ops[1..]);
    }
  }

  lemma {:induction false} DropNothing(locks: seq<Lock>)
    ensures Drop(locks, {}) == locks
  {
    if locks != [] { DropNothing(locks[1..]); }
  }

  lemma NothingHeldYet(obj: KVObject, key: string)
    ensures Since(obj, [], key) == obj
  {
    assert Released([], key) == {};
    DropNothing(obj.locks);
  }

  lemma LastIsPut(t: Tree, front: seq<ClientOp>, op: ClientOp, key: string)
    requires WellFormed(t) && AllAllowed(t, front) && AllAllowed(t, front + [op])
    requires var t' := LocalRun(t, front);
             && WellFormed(t') && Allowed(t', op) && LocalRun(t, front + [op]) == Local(t', op)
             && op.DoPut? && op.key == key && PutOk(t', Components(key))
    ensures var ops := front + [op];
            && LastPut(t, ops, key, |front| + 1)
            && At(LocalRun(t, ops), key) == Stored(Since(Origin(t, ops, key, |front| + 1), ops[|front| + 1..], key))
  {
    var ops := front + [op];
    LookApply(LocalRun(t, front), PutKey(key, op.value), Components(key));
    assert ops[..|front|] == front && ops[|front|] == op && ops[|front| + 1..] == [];
    NothingHeldYet(op.value, key);
  }

  lemma StoredBefore(t: Tree, op: ClientOp, key: string)
    requires WellFormed(t) && Allowed(t, op) && At(Local(t, op), key).Stored?
    requires !(op.DoPut? && op.key == key && PutOk(t, Components(key)))
    ensures At(t, key).Stored?
  {
    ObjectAfter(t, op, key);
  }

  lemma LastPutExtends(t: Tree, front: seq<ClientOp>, op: ClientOp, key: string, k: nat)
    requires AllAllowed(t, front) && AllAllowed(t, front + [op])
    requires LastPut(t, front, key, k)
    requires !(op.DoPut? && op.key == key && PutOk(LocalRun(t, front), Components(key)))
    ensures LastPut(t, front + [op], key, k)
    ensures Origin(t, front + [op], key, k) == Origin(t, front, key, k)
  {
    var ops := front + [op];
    assert ops[..|front|] == front;
    forall i | 0 <= i < |front| ensures Succeeds(t, ops, key, i) <==> Succeeds(t, front, key, i) {
      assert ops[..i] == front[..i];
    }
  }

  lemma KeptUnlock(first: seq<Lock>, ops: seq<ClientOp>, lock: Lock, obj: KVObject)
    requires lock.prefix == KV_BUCKET && FirstIds(first, ops) && FreshIds(ops)
    requires obj.locks == Kept(first, ops, lock.key) && LockIndex(obj.locks, lock.lockID) >= 0
    ensures RemoveLock(obj, lock.lockID) == obj.(locks := Kept(first, ops + [DoUnlock(lock)], lock.key))
  {
    KeptRelease(first, ops, lock);
    HeldDistinct(first, ops, lock.key);
    DropAppend(first, Granted(ops, lock.key), Released(ops, lock.key));
    DropKeepsDistinct(first + Granted(ops, lock.key), Released(ops, lock.key));
    RemoveIsDrop(obj.locks, LockIndex(obj.locks, lock.lockID));
  }

  /** One more operation that is not a successful put of the path keeps the object in step with `Kept`. */
  lemma KeptAfter(t: Tree, first: KVObject, rest: seq<ClientOp>, op: ClientOp, key: string)
    requires WellFormed(t) && Allowed(t, op)
    requires FreshIds(rest + [op]) && FirstIds(first.locks, rest)
    requires At(t, key) == Stored(Since(first, rest, key))
    requires At(Local(t, op), key).Stored? && !(op.DoPut? && op.key == key && PutOk(t, Components(key)))
    ensures At(Local(t, op), key) == Stored(Since(first, rest + [op], key))
  {
    ObjectAfter(t, op, key);
    if op.DoLock? && op.key == key {
      KeptGrant(first.locks, rest, key, op.granted);
    } else if Unlocks(op, key) {
      FreshFront(rest, op);
      KeptUnlock(first.locks, rest, op.lock, At(t, key).obj);
    } else {
      KeptOther(first.locks, rest, op, key);
    }
  }

  /** Ids are fresh in a run, also with regard to the locks at `key` before it. */
  ghost predicate AllFresh(t: Tree, ops: seq<ClientOp>, key: string) {
    && FreshIds(ops) && PutsUnlocked(ops)
    && (At(t, key).Stored? ==> FirstIds(At(t, key).obj.locks, ops))
  }

  lemma OriginIsFresh(t: Tree, ops: seq<ClientOp>, key: string, k: nat)
    requires AllAllowed(t, ops) && AllFresh(t, ops, key) && LastPut(t, ops, key, k)
    ensures FirstIds(Origin(t, ops, key, k).locks, ops[k..])
  {
    if k == 0 {
      assert ops[0..] == ops;
    } else {
      assert ops[k - 1].value.locks == [];
    }
  }

  lemma FreshRest(front: seq<ClientOp>, op: ClientOp, k: nat)
    requires k <= |front| && FreshIds(front + [op])
    ensures (front + [op])[k..] == front[k..] + [op] && FreshIds(front[k..] + [op])
  {
    SuffixFresh(front + [op], k);
    assert (front + [op])[k..] == front[k..] + [op];
  }

  /** One more operation on the tree `t'` that a run from `t` led to. */
  lemma HeldStep(t: Tree, front: seq<ClientOp>, op: ClientOp, key: string, k: nat, t': Tree)
    requires AllAllowed(t, front) && AllFresh(t, front, key) && FreshIds(front + [op])
    requires WellFormed(t') && Allowed(t', op) && !(op.DoPut? && op.key == key && PutOk(t', Components(key)))
    requires LastPut(t, front, key, k) && At(Local(t', op), key).Stored?
    requires At(t', key) == Stored(Since(Origin(t, front, key, k), front[k..], key))
    ensures At(Local(t', op), key) == Stored(Since(Origin(t, front, key, k), front[k..] + [op], key))
  {
    OriginIsFresh(t, front, key, k);
    FreshRest(front, op, k);
    KeptAfter(t', Origin(t, front, key, k), front[k..], op, key);
  }

  lemma NoPutInHistory(t: Tree, front: seq<ClientOp>, op: ClientOp, key: string, k: nat, t': Tree)
    requires AllAllowed(t, front) && AllAllowed(t, front + [op]) && AllFresh(t, front, key) && FreshIds(front + [op])
    requires t' == LocalRun(t, front) && WellFormed(t') && Allowed(t', op)
    requires !(op.DoPut? && op.key == key && PutOk(t', Components(key)))
    requires LastPut(t, front, key, k) && At(Local(t', op), key).Stored?
    requires At(t', key) == Stored(Since(Origin(t, front, key, k), front[k..], key))
    ensures var ops := front + [op];
            && LastPut(t, ops, key, k)
            && At(Local(t', op), key) == Stored(Since(Origin(t, ops, key, k), ops[k..], key))
  {
    HeldStep(t, front, op, key, k, t');
    LastPutExtends(t, front, op, key, k);
    FreshRest(front, op, k);
  }

  lemma RunFront(t: Tree, front: seq<ClientOp>, op: ClientOp, key: string)
    requires WellFormed(t) && AllAllowed(t, front + [op]) && AllFresh(t, front + [op], key)
    ensures AllAllowed(t, front) && AllFresh(t, front, key) && WellFormed(LocalRun(t, front))
    ensures Allowed(LocalRun(t, front), op) && LocalRun(t, front + [op]) == Local(LocalRun(t, front), op)
  {
    var ops := front + [op];
    AllowedFront(t, ops, |front|);
    assert ops[..|front|] == front;
    OneMoreOp(t, front, op);
    RunsStayWellFormed(t, front);
    FreshFront(front, op);
    assert forall i :: 0 <= i < |front| ==> front[i] == ops[i];
    if At(t, key).Stored? { FirstIdsFront(At(t, key).obj.locks, front, op); }
  }

  /**
   * Lock history: an object stored at the end of a run is the value of the last successful put of its path, or what
   * was there before the run, with the locks granted since and without those released since, and nothing else
   * changed.
   */
  lemma {:induction false} LocksAreTheGrantedOnes(t: Tree, ops: seq<ClientOp>, key: string) returns (k: nat)
    requires WellFormed(t) && AllAllowed(t, ops) && AllFresh(t, ops, key)
    requires At(LocalRun(t, ops), key).Stored?
    ensures LastPut(t, ops, key, k)
    ensures At(LocalRun(t, ops), key) == Stored(Since(Origin(t, ops, key, k), ops[k..], key))
    decreases |ops|
  {
    if ops == [] {
      k := 0;
      NothingHeldYet(At(t, key).obj, key);
    } else {
      var front, op := ops[..|ops| - 1], ops[|ops| - 1];
      assert ops == front + [op];
      RunFront(t, front, op, key);
      var t' := LocalRun(t, front);
      k := |front| + 1;
      if op.DoPut? && op.key == key && PutOk(t', Components(key)) {
        LastIsPut(t, front, op, key);
      } else {
        StoredBefore(t', op, key);
        k := LocksAreTheGrantedOnes(t, front, key);
        NoPutInHistory(t, front, op, key, k, t');
      }
    }
  }

  lemma {:induction false} LastLockIndex(locks: seq<Lock>, lock: Lock)
    requires LockIndex(locks, lock.lockID) == -1
    ensures LockIndex(locks + [lock], lock.lockID) == |locks|
  {
    if locks != [] {
      assert (locks + [lock])[1..] == locks[1..] + [lock];
      LastLockIndex(locks[1..], lock);
    }
  }

  lemma RemoveAdded(obj: KVObject, lock: Lock)
    requires LockIndex(obj.locks, lock.lockID) == -1
    ensures LockIndex(AddLock(obj, lock).locks, lock.lockID) == |obj.locks|
    ensures RemoveLock(AddLock(obj, lock), lock.lockID) == obj
  {
    LastLockIndex(obj.locks, lock);
    var all := obj.locks + [lock];
    assert all[..|obj.locks|] + all[|obj.locks| + 1..] == obj.locks;
  }

  /** Putting back the object a put has replaced undoes the put. */
  lemma PutBack(t: Tree, u: Update)
    requires WellFormed(t) && u.PutKey? && At(t, u.key).Stored? && Fires(t, u)
    ensures Apply(Apply(t, u), PutKey(u.key, At(t, u.key).obj)) == t
  {
    var p, t', w := Components(u.key), Apply(t, u), PutKey(u.key, At(t, u.key).obj);
    ApplyKeepsWellFormed(t, u);
    LookApply(t, u, p);
    StoredCanBePut(t', u.key);
    forall q ensures Look(Apply(t', w), q) == Look(t, q) {
      LookApply(t, u, q);
      LookApply(t', w, q);
      if q < p { AboveIsDirectory(t, q, p); }
    }
    SameView(Apply(t', w), t);
  }

  /** A lock taken and given back leaves the whole store as it was. */
  lemma UnlockUndoesLock(t: Tree, key: string, lock: Lock)
    requires WellFormed(t) && At(t, key).Stored? && lock.key == key && lock.prefix == KV_BUCKET
    requires LockIndex(At(t, key).obj.locks, lock.lockID) == -1
    ensures var locked := Local(t, DoLock(key, lock));
            && At(locked, key) == Stored(AddLock(At(t, key).obj, lock))
            && Allowed(locked, DoUnlock(lock))
            && Local(locked, DoUnlock(lock)) == t
  {
    var obj := At(t, key).obj;
    var u := PutKey(key, AddLock(obj, lock));
    StoredCanBePut(t, key);
    assert Local(t, DoLock(key, lock)) == Apply(t, u);
    LookApply(t, u, Components(key));
    RemoveAdded(obj, lock);
    assert Effect(Apply(t, u), DoUnlock(lock)) == Some(PutKey(key, obj));
    PutBack(t, u);
  }
}
