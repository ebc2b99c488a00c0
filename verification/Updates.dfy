/**
 * What one put, key deletion or bucket deletion does to a tree, as a function of the tree and, path by path,
 * as a change of the flat view.
 */
module Updates {
  import opened Types
  import opened Paths
  import opened Tree

  /** The path an update works on. */
  function Target(u: Update): (p: Path)
    ensures p != []
  {
    match u
    case PutKey(key, _) => Components(key)
    case DeleteKey(key) => Components(key)
    case DeleteBucket(key) => Components(key)
    case LockCreate(key) => Components(key)
    case LockDelete(lock) => Components(lock.key)
    case Unknown => [""]
  }

  /** When a put goes through: no empty name, no value on the way, no bucket at the end. */
  ghost predicate PutOk(t: Tree, p: Path) {
    && (forall i :: 0 <= i < |p| ==> p[i] != "")
    && (forall r :: r < p ==> !Look(t, r).Stored?)
    && !Look(t, p).Directory?
  }

  /** The walk's own answer: the first obstacle from the root, as the component walk meets it. */
  function PutStatus(t: Tree, p: Path, i: nat := 0): Status
    requires i < |p|
    decreases |p| - i
  {
    if i == |p| - 1 then
      if p[i] == "" then Err(KeyRequired)
      else if Look(t, p).Directory? then Err(IncompatibleValue)
      else Ok
    else if p[i] == "" then Err(BucketNameRequired)
    else if Look(t, p[..i + 1]).Stored? then Err(IncompatibleValue)
    else PutStatus(t, p, i + 1)
  }

  lemma {:induction false} PutStatusFrom(t: Tree, p: Path, i: nat)
    requires i < |p|
    ensures PutStatus(t, p, i) == Ok <==>
            && (forall j :: i <= j < |p| ==> p[j] != "")
            && (forall j :: i < j < |p| ==> !Look(t, p[..j]).Stored?)
            && !Look(t, p).Directory?
    decreases |p| - i
  {
    if i < |p| - 1 {
      PutStatusFrom(t, p, i + 1);
    }
  }

  /** A put succeeds exactly when no name is empty, no proper prefix holds a value and the path is no bucket. */
  lemma PutSucceedsExactly(t: Tree, p: Path)
    requires t.Bucket? && p != []
    ensures PutStatus(t, p) == Ok <==> PutOk(t, p)
  {
    PutStatusFrom(t, p, 0);
    assert forall r :: r < p ==> r == p[..|r|];
    assert forall j :: 0 < j < |p| ==> p[..j] < p;
    assert p[..0] == [];
  }

  /** The first name from position `i` on that is not a bucket. */
  function FirstMissing(t: Tree, p: Path, i: nat): string
    requires i < |p|
    decreases |p| - i
  {
    if i == |p| - 1 || Look(t, p[..i + 1]) != Directory then p[i] else FirstMissing(t, p, i + 1)
  }

  /** Nothing stands in a put's way at the first `i` names of its path. */
  ghost predicate ClearUpTo(t: Tree, p: Path, i: nat)
    requires i <= |p|
  {
    "" !in p[..i] && forall r :: r <= p[..i] ==> !Look(t, r).Stored?
  }

  lemma ClearOneMore(t: Tree, p: Path, i: nat)
    requires i < |p| && ClearUpTo(t, p, i) && p[i] != "" && !Look(t, p[..i + 1]).Stored?
    ensures ClearUpTo(t, p, i + 1)
  {
    assert p[..i + 1] == p[..i] + [p[i]];
    forall r | r <= p[..i + 1] ensures !Look(t, r).Stored? {
      PrefixOrEqual(r, p[..i + 1]);
      assert r == p[..i + 1] || r <= p[..i];
    }
  }

  lemma {:induction false} FirstObstacle(t: Tree, p: Path, i: nat) returns (k: nat)
    requires i < |p| && ClearUpTo(t, p, i) && PutStatus(t, p, i).Err?
    ensures k < |p| && ClearUpTo(t, p, k)
    ensures p[k] == "" ==> PutStatus(t, p, i) == Err(if k == |p| - 1 then KeyRequired else BucketNameRequired)
    ensures p[k] != "" ==> PutStatus(t, p, i) == Err(IncompatibleValue)
    ensures p[k] != "" ==> if k == |p| - 1 then Look(t, p).Directory? else Look(t, p[..k + 1]).Stored?
    decreases |p| - i
  {
    k := i;
    if i < |p| - 1 && p[i] != "" && !Look(t, p[..i + 1]).Stored? {
      ClearOneMore(t, p, i);
      k := FirstObstacle(t, p, i + 1);
    }
  }

  /** A failing put reports the first obstacle on its way: an empty name, a value, or a bucket at the end. */
  lemma PutReportsFirstObstacle(t: Tree, p: Path) returns (k: nat)
    requires t.Bucket? && p != [] && PutStatus(t, p).Err?
    ensures k < |p| && ClearUpTo(t, p, k)
    ensures p[k] == "" ==> PutStatus(t, p) == Err(if k == |p| - 1 then KeyRequired else BucketNameRequired)
    ensures p[k] != "" ==> PutStatus(t, p) == Err(IncompatibleValue)
    ensures p[k] != "" ==> if k == |p| - 1 then Look(t, p).Directory? else Look(t, p[..k + 1]).Stored?
  {
    assert p[..0] == [];
    k := FirstObstacle(t, p, 0);
  }

  /** A walk that cannot go on reports the name after the last bucket. */
  lemma {:induction false} FirstMissingExactly(t: Tree, p: Path, i: nat) returns (k: nat)
    requires i < |p| && Look(t, p[..i]).Directory? && !Look(t, p[..|p| - 1]).Directory?
    ensures k < |p| && FirstMissing(t, p, i) == p[k]
    ensures Look(t, p[..k]).Directory? && !Look(t, p[..k + 1]).Directory?
    decreases |p| - i
  {
    k := i;
    if i < |p| - 1 && Look(t, p[..i + 1]) == Directory {
      k := FirstMissingExactly(t, p, i + 1);
    }
  }

  /** A key deletion's own answer. */
  function DeleteKeyStatus(t: Tree, p: Path): Status
    requires p != []
  {
    if Look(t, p[..|p| - 1]) != Directory then Err(BucketMissing(FirstMissing(t, p, 0)))
    else if Look(t, p).Directory? then Err(IncompatibleValue)
    else Ok
  }

  /** A bucket deletion's own answer. */
  function DeleteBucketStatus(t: Tree, p: Path): Status
    requires p != []
  {
    if Look(t, p[..|p| - 1]) != Directory then Err(BucketMissing(FirstMissing(t, p, 0)))
    else
      match Look(t, p)
      case Absent => Err(BucketNotFound)
      case Stored(_) => Err(IncompatibleValue)
      case Directory => Ok
  }

  /**
   * Without emission a deletion reports what stood in its way: a bucket missing on the way, a bucket where an object
   * was to be deleted, an object or nothing where a bucket was. Deleting an object that is not there is no error.
   */
  lemma DeletionsReport(t: Tree, p: Path)
    requires p != []
    ensures var way, e := Look(t, p[..|p| - 1]), Look(t, p);
            && (DeleteKeyStatus(t, p) == Ok <==> way.Directory? && !e.Directory?)
            && (DeleteKeyStatus(t, p) == Err(IncompatibleValue) <==> e.Directory?)
            && (DeleteBucketStatus(t, p) == Ok <==> e.Directory?)
            && (DeleteBucketStatus(t, p) == Err(IncompatibleValue) <==> e.Stored?)
            && (DeleteBucketStatus(t, p) == Err(BucketNotFound) <==> way.Directory? && e.Absent?)
            && (!way.Directory? ==>
                  DeleteKeyStatus(t, p) == DeleteBucketStatus(t, p) == Err(BucketMissing(FirstMissing(t, p, 0))))
  {
    assert p == p[..|p| - 1] + [p[|p| - 1]];
    LookAppend(t, p[..|p| - 1], p[|p| - 1]);
  }

  /** Whether an update changes the tree at all, as opposed to failing or finding nothing to delete. */
  ghost predicate Fires(t: Tree, u: Update) {
    match u
    case PutKey(_, _) => PutOk(t, Target(u))
    case DeleteKey(_) => Look(t, Target(u)).Stored?
    case DeleteBucket(_) => Look(t, Target(u)).Directory?
    case _ => false
  }

  /** The tree after an update; a failing update leaves it as it was. */
  ghost function Apply(t: Tree, u: Update): Tree {
    if !Fires(t, u) then t
    else if u.PutKey? then Graft(t, Target(u), Leaf(u.value))
    else Prune(t, Target(u))
  }

  ghost function Run(t: Tree, us: seq<Update>): Tree
    decreases |us|
  {
    if us == [] then t else Run(Apply(t, us[0]), us[1..])
  }

  /** What an update that fires leaves at path `q`, where `e` stood. */
  function Change(u: Update, q: Path, e: Entry): Entry {
    var p := Target(u);
    if u.PutKey? then
      if q == p then Stored(u.value) else if q < p then Directory else e
    else if p <= q then Absent else e
  }

  /** The tree operations refine pointwise changes of the flat view. */
  lemma LookApply(t: Tree, u: Update, q: Path)
    ensures Look(Apply(t, u), q) == if Fires(t, u) then Change(u, q, Look(t, q)) else Look(t, q)
  {
    var p := Target(u);
    if Fires(t, u) {
      if u.PutKey? {
        LookGraft(t, p, Leaf(u.value), q);
        if p < q { NothingBelow(t, p, q); }
      } else {
        LookPrune(t, p, q);
      }
    }
  }

  /** After a put that went through, the path can be put again. */
  lemma PutCanBeRepeated(t: Tree, u: Update)
    requires u.PutKey? && Fires(t, u)
    ensures PutOk(Apply(t, u), Target(u)) && Look(Apply(t, u), Target(u)) == Stored(u.value)
  {
    LookApply(t, u, Target(u));
    forall r | r < Target(u) ensures !Look(Apply(t, u), r).Stored? { LookApply(t, u, r); }
  }

  lemma ApplyKeepsWellFormed(t: Tree, u: Update)
    requires WellFormed(t)
    ensures WellFormed(Apply(t, u))
  {
    var t' := Apply(t, u);
    LookApply(t, u, []);
    assert Look(t', []) == Directory;
    forall q, i | Look(t', q) != Absent && 0 <= i < |q|
      ensures q[i] != "" && NoSlash(q[i])
    {
      LookApply(t, u, q);
      if Look(t, q) == Absent {
        assert q <= Target(u);
        assert q[i] == Target(u)[i];
      }
    }
  }

  lemma {:induction false} RunKeepsWellFormed(t: Tree, us: seq<Update>)
    requires WellFormed(t)
    ensures WellFormed(Run(t, us))
    decreases |us|
  {
    if us != [] {
      ApplyKeepsWellFormed(t, us[0]);
      RunKeepsWellFormed(Apply(t, us[0]), us[1..]);
    }
  }

  lemma {:induction false} RunAppend(t: Tree, us: seq<Update>, ws: seq<Update>)
    ensures Run(t, us + ws) == Run(Run(t, us), ws)
    decreases |us|
  {
    if us == [] {
      assert us + ws == ws;
    } else {
      assert (us + ws)[1..] == us[1..] + ws;
      RunAppend(Apply(t, us[0]), us[1..], ws);
    }
  }
}
