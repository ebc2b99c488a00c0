/**
 * The embedded database as its users rely on it: a read-write transaction works on its own copy of the tree,
 * which becomes the database when the transaction commits and is dropped when it rolls back. A bucket handle
 * is the path of the bucket in the transaction's tree.
 */
module Bolt {
  import opened Types
  import opened Tree

  class Tx {
    var root: Tree

    constructor (t: Tree)
      ensures root == t
    {
      root := t;
    }

    predicate IsBucket(at: Path)
      reads this
    {
      Look(root, at) == Directory
    }

    /** The sub-bucket of that name, if it is one. */
    method Bucket(at: Path, name: string) returns (found: bool)
      requires IsBucket(at)
      ensures found <==> IsBucket(at + [name])
    {
      found := IsBucket(at + [name]);
    }

    method CreateBucketIfNotExists(at: Path, name: string) returns (err: Status)
      requires IsBucket(at)
      modifies this
      ensures name == "" ==> err == Err(BucketNameRequired)
      ensures name != "" && Look(old(root), at + [name]).Stored? ==> err == Err(IncompatibleValue)
      ensures name != "" && !Look(old(root), at + [name]).Stored? ==> err == Ok && IsBucket(at + [name])
      ensures err.Ok? && !old(IsBucket(at + [name])) ==> root == Graft(old(root), at + [name], EMPTY)
      ensures err.Err? || old(IsBucket(at + [name])) ==> root == old(root)
    {
      if name == "" { return Err(BucketNameRequired); }
      var e := Look(root, at + [name]);
      if e.Stored? { return Err(IncompatibleValue); }
      if e.Absent? {
        LookGraft(root, at + [name], EMPTY, at + [name]);
        root := Graft(root, at + [name], EMPTY);
      }
      return Ok;
    }

    method Put(at: Path, key: string, obj: KVObject) returns (err: Status)
      requires IsBucket(at)
      modifies this
      ensures key == "" ==> err == Err(KeyRequired)
      ensures key != "" && old(IsBucket(at + [key])) ==> err == Err(IncompatibleValue)
      ensures key != "" && !old(IsBucket(at + [key])) ==> err == Ok
      ensures root == if err.Ok? then Graft(old(root), at + [key], Leaf(obj)) else old(root)
    {
      if key == "" { return Err(KeyRequired); }
      if IsBucket(at + [key]) { return Err(IncompatibleValue); }
      root := Graft(root, at + [key], Leaf(obj));
      return Ok;
    }

    /** Nothing for a missing key, and nothing for a bucket. */
    method Get(at: Path, key: string) returns (v: Option<KVObject>)
      requires IsBucket(at)
      ensures v == if Look(root, at + [key]).Stored? then Some(Look(root, at + [key]).obj) else None
    {
      var e := Look(root, at + [key]);
      v := if e.Stored? then Some(e.obj) else None;
    }

    /** Deleting a missing key is no error, deleting a bucket is. */
    method Delete(at: Path, key: string) returns (err: Status)
      requires IsBucket(at)
      modifies this
      ensures err == if old(IsBucket(at + [key])) then Err(IncompatibleValue) else Ok
      ensures root == if Look(old(root), at + [key]).Stored? then Prune(old(root), at + [key]) else old(root)
    {
      var e := Look(root, at + [key]);
      if e.Directory? { return Err(IncompatibleValue); }
      if e.Stored? { root := Prune(root, at + [key]); }
      return Ok;
    }

    /** Deletes a bucket with all it holds. A missing bucket is an error, and a plain value is another. */
    method DeleteBucket(at: Path, name: string) returns (err: Status)
      requires IsBucket(at)
      modifies this
      ensures err.Ok? <==> old(IsBucket(at + [name]))
      ensures err == Err(IncompatibleValue) <==> Look(old(root), at + [name]).Stored?
      ensures err == Err(BucketNotFound) <==> Look(old(root), at + [name]).Absent?
      ensures root == if old(IsBucket(at + [name])) then Prune(old(root), at + [name]) else old(root)
    {
      var e := Look(root, at + [name]);
      if e.Absent? { return Err(BucketNotFound); }
      if e.Stored? { return Err(IncompatibleValue); }
      root := Prune(root, at + [name]);
      return Ok;
    }
  }
}
