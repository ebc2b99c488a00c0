/** The operations a node offers its own clients, and what each of them tells the other nodes. */
module Operations {
  import opened Types
  import opened Paths
  import opened Tree
  import opened Updates
  import opened FlatStore
  import opened Replay

  datatype ClientOp =
    | DoPut(key: string, value: KVObject)
    | DoDeleteKey(key: string)
    | DoDeleteBucket(key: string)
    | DoLock(key: string, granted: Lock)
    | DoUnlock(lock: Lock)

  /** The position of the first lock with this id, or -1. */
  function LockIndex(locks: seq<Lock>, id: string): (index: int)
    ensures -1 <= index < |locks|
    ensures index >= 0 ==> locks[index].lockID == id && forall j :: 0 <= j < index ==> locks[j].lockID != id
    ensures index == -1 ==> forall l :: l in locks ==> l.lockID != id
  {
    if locks == [] then -1
    else if locks[0].lockID == id then 0
    else
      var rest := LockIndex(locks[1..], id);
      if rest == -1 then -1 else rest + 1
  }

  /** How long a lock is meant to last, in nanoseconds. */
  const LOCK_TIME: int := 5 * 60 * 1_000_000_000

  /** The lock that a node at this address draws up. */
  function NewLock(key: string, address: string, d: LockDraw): Lock {
    Lock(key, KV_BUCKET, d.id, d.machine, address, d.claim, d.base + LOCK_TIME)
  }

  function AddLock(obj: KVObject, lock: Lock): KVObject {
    obj.(locks := obj.locks + [lock])
  }

  function RemoveLock(obj: KVObject, id: string): KVObject
    requires LockIndex(obj.locks, id) >= 0
  {
    var index := LockIndex(obj.locks, id);
    obj.(locks := obj.locks[..index] + obj.locks[index + 1..])
  }

  /**
   * Unlocking panics in two cases: the object does not carry the lock, and the list is indexed at -1; or the
   * lock's own prefix names no root bucket.
   */
  ghost predicate Allowed(t: Tree, op: ClientOp) {
    op.DoUnlock? ==>
      if op.lock.prefix == KV_BUCKET then
        var e := Look(t, Components(op.lock.key));
        e.Stored? ==> LockIndex(e.obj.locks, op.lock.lockID) >= 0
      else op.lock.prefix == SYSTEM_BUCKET
  }

  /** An unlocking finds an object only in the bucket that holds objects. */
  ghost predicate Finds(t: Tree, lock: Lock) {
    lock.prefix == KV_BUCKET && Look(t, Components(lock.key)).Stored?
  }

  /** The put or deletion that an operation comes down to; locking something that is not there does nothing. */
  ghost function Effect(t: Tree, op: ClientOp): (u: Option<Update>)
    requires Allowed(t, op)
  {
    match op
    case DoPut(key, value) => Some(PutKey(key, value))
    case DoDeleteKey(key) => Some(DeleteKey(key))
    case DoDeleteBucket(key) => Some(DeleteBucket(key))
    case DoLock(key, granted) =>
      var e := Look(t, Components(key));
      if e.Stored? then Some(PutKey(key, AddLock(e.obj, granted))) else None
    case DoUnlock(lock) =>
      if Finds(t, lock) then
        Some(PutKey(lock.key, RemoveLock(Look(t, Components(lock.key)).obj, lock.lockID)))
      else None
  }

  ghost function Local(t: Tree, op: ClientOp): Tree
    requires Allowed(t, op)
  {
    var u := Effect(t, op);
    if u.Some? then Apply(t, u.value) else t
  }

  ghost function Sent(t: Tree, op: ClientOp): seq<Update>
    requires Allowed(t, op)
  {
    var u := Effect(t, op);
    if u.Some? then Emitted(t, u.value) else []
  }

  lemma SentIsFaithful(t: Tree, op: ClientOp)
    requires Allowed(t, op)
    ensures Emittable(t, Sent(t, op)) && Run(t, Sent(t, op)) == Local(t, op) && |Sent(t, op)| <= 1
  {
    var us := Sent(t, op);
    if us != [] {
      assert us[1..] == [];
      assert Run(Apply(t, us[0]), us[1..]) == Apply(t, us[0]);
    }
  }

  ghost predicate AllAllowed(t: Tree, ops: seq<ClientOp>)
    decreases |ops|
  {
    ops != [] ==> Allowed(t, ops[0]) && AllAllowed(Local(t, ops[0]), ops[1..])
  }

  ghost function LocalRun(t: Tree, ops: seq<ClientOp>): Tree
    requires AllAllowed(t, ops)
    decreases |ops|
  {
    if ops == [] then t else LocalRun(Local(t, ops[0]), ops[1..])
  }

  ghost function SentLog(t: Tree, ops: seq<ClientOp>): seq<Update>
    requires AllAllowed(t, ops)
    decreases |ops|
  {
    if ops == [] then [] else Sent(t, ops[0]) + SentLog(Local(t, ops[0]), ops[1..])
  }

  lemma {:induction false} OneMoreOp(t: Tree, ops: seq<ClientOp>, op: ClientOp)
    requires AllAllowed(t, ops) && Allowed(LocalRun(t, ops), op)
    ensures AllAllowed(t, ops + [op])
    ensures LocalRun(t, ops + [op]) == Local(LocalRun(t, ops), op)
    decreases |ops|
  {
    if ops == [] {
      assert ops + [op] == [op] && [op][1..] == [];
      assert LocalRun(Local(t, op), []) == Local(t, op);
    } else {
      assert (ops + [op])[0] == ops[0] && (ops + [op])[1..] == ops[1..] + [op];
      OneMoreOp(Local(t, ops[0]), ops[1..], op);
    }
  }

  lemma LogOfCons(t: Tree, op: ClientOp, ops: seq<ClientOp>)
    requires AllAllowed(t, [op] + ops)
    ensures Allowed(t, op) && AllAllowed(Local(t, op), ops)
    ensures SentLog(t, [op] + ops) == Sent(t, op) + SentLog(Local(t, op), ops)
  {
    assert ([op] + ops)[0] == op && ([op] + ops)[1..] == ops;
  }

  lemma {:induction false} OneMoreSent(t: Tree, ops: seq<ClientOp>, op: ClientOp)
    requires AllAllowed(t, ops) && Allowed(LocalRun(t, ops), op) && AllAllowed(t, ops + [op])
    ensures SentLog(t, ops + [op]) == SentLog(t, ops) + Sent(LocalRun(t, ops), op)
    decreases |ops|
  {
    if ops == [] {
      assert ops + [op] == [op] && [op][1..] == [];
      assert SentLog(Local(t, op), []) == [];
    } else {
      var t' := Local(t, ops[0]);
      assert ops + [op] == [ops[0]] + (ops[1..] + [op]);
      LogOfCons(t, ops[0], ops[1..] + [op]);
      OneMoreSent(t', ops[1..], op);
      var first, rest, last := Sent(t, ops[0]), SentLog(t', ops[1..]), Sent(LocalRun(t', ops[1..]), op);
      assert first + (rest + last) == (first + rest) + last;
    }
  }

  lemma {:induction false} SentLogIsFaithful(t: Tree, ops: seq<ClientOp>)
    requires AllAllowed(t, ops)
    ensures Run(t, SentLog(t, ops)) == LocalRun(t, ops)
    decreases |ops|
  {
    if ops != [] {
      SentIsFaithful(t, ops[0]);
      SentLogIsFaithful(Local(t, ops[0]), ops[1..]);
      RunAppend(t, Sent(t, ops[0]), SentLog(Local(t, ops[0]), ops[1..]));
    }
  }

  /** Every prefix of what was sent is what some prefix of the operations sent. */
  lemma {:induction false} LogPrefixIsOpPrefix(t: Tree, ops: seq<ClientOp>, n: nat) returns (k: nat)
    requires AllAllowed(t, ops) && n <= |SentLog(t, ops)|
    ensures k <= |ops| && AllAllowed(t, ops[..k])
    ensures LocalRun(t, ops[..k]) == Run(t, SentLog(t, ops)[..n])
    decreases |ops|
  {
    if n == 0 {
      k := 0;
    } else {
      var first, rest := Sent(t, ops[0]), SentLog(Local(t, ops[0]), ops[1..]);
      SentIsFaithful(t, ops[0]);
      var k' := LogPrefixIsOpPrefix(Local(t, ops[0]), ops[1..], n - |first|);
      k := k' + 1;
      assert ops[..k][1..] == ops[1..][..k'];
      assert SentLog(t, ops)[..n] == first + rest[..n - |first|];
      RunAppend(t, first, rest[..n - |first|]);
    }
  }

  /** What comes of an update taken from the queue: a new tree and updates sent on, or a crash of the node. */
  datatype Outcome = Handled(tree: Tree, sent: seq<Update>) | Panicked

  /**
   * The dispatcher. Key and bucket updates are applied and not sent on. Lock updates are applied, and the
   * resulting object is sent on as a put although the dispatcher asks for silence. `granted` is the lock a
   * creation draws up, with its random id and its times.
   */
  ghost function Dispatch(t: Tree, u: Update, granted: Lock): Outcome {
    match u
    case PutKey(_, _) => Handled(Apply(t, u), [])
    case DeleteKey(_) => Handled(Apply(t, u), [])
    case DeleteBucket(_) => Handled(Apply(t, u), [])
    case LockCreate(key) => Handled(Local(t, DoLock(key, granted)), Sent(t, DoLock(key, granted)))
    case LockDelete(lock) =>
      if Allowed(t, DoUnlock(lock)) then Handled(Local(t, DoUnlock(lock)), Sent(t, DoUnlock(lock)))
      else Panicked
    case Unknown => Handled(t, [])
  }

  /** Key and bucket updates are applied in silence, unknown ones dropped. */
  lemma PlainUpdates(t: Tree, u: Update, granted: Lock)
    requires !u.LockCreate? && !u.LockDelete?
    ensures Dispatch(t, u, granted) == Handled(Run(t, [u]), [])
  {
    assert [u][1..] == [];
    assert Run(Apply(t, u), []) == Apply(t, u);
  }

  /** A received lock creation adds the lock to the object, if there is one, and sends the object on. */
  lemma LockCreationReceived(t: Tree, key: string, granted: Lock)
    requires WellFormed(t)
    ensures var out, e := Dispatch(t, LockCreate(key), granted), Look(t, Components(key));
            && out.Handled?
            && (e.Stored? ==>
                  var obj := e.obj.(locks := e.obj.locks + [granted]);
                  out.sent == [PutKey(key, obj)] && Look(out.tree, Components(key)) == Stored(obj))
            && (!e.Stored? ==> out == Handled(t, []))
  {
    var e := Look(t, Components(key));
    if e.Stored? {
      StoredCanBePut(t, key);
      LookApply(t, PutKey(key, AddLock(e.obj, granted)), Components(key));
    }
  }

  /**
   * A received lock deletion crashes the node exactly when the lock names no root bucket, or names the one of the
   * objects and an object without the lock.
   */
  lemma LockDeletionPanics(t: Tree, lock: Lock, granted: Lock)
    ensures var e := Look(t, Components(lock.key));
            Dispatch(t, LockDelete(lock), granted).Panicked? <==>
              (lock.prefix == "kv" && e.Stored? && forall l :: l in e.obj.locks ==> l.lockID != lock.lockID)
              || (lock.prefix != "kv" && lock.prefix != "_system")
  {
  }

  /** Otherwise it drops the first lock with the id, at position `i`, and sends the object on, if there is one. */
  lemma LockDeletionReceived(t: Tree, lock: Lock, granted: Lock) returns (i: nat)
    requires WellFormed(t) && Dispatch(t, LockDelete(lock), granted).Handled?
    ensures var out, e := Dispatch(t, LockDelete(lock), granted), Look(t, Components(lock.key));
            if lock.prefix == "kv" && e.Stored? then
              && i < |e.obj.locks| && e.obj.locks[i].lockID == lock.lockID
              && (forall j :: 0 <= j < i ==> e.obj.locks[j].lockID != lock.lockID)
              && var obj := e.obj.(locks := e.obj.locks[..i] + e.obj.locks[i + 1..]);
                 out.sent == [PutKey(lock.key, obj)] && Look(out.tree, Components(lock.key)) == Stored(obj)
            else out == Handled(t, [])
  {
    i := 0;
    if Finds(t, lock) {
      var e := Look(t, Components(lock.key));
      i := LockIndex(e.obj.locks, lock.lockID);
      StoredCanBePut(t, lock.key);
      LookApply(t, PutKey(lock.key, RemoveLock(e.obj, lock.lockID)), Components(lock.key));
    }
  }
}
