/**
 * When replicas agree: two nodes that apply the same updates, in orders that agree on every conflicting pair,
 * end with the same tree. Which pairs conflict is decided exactly.
 */
module Convergence {
  import opened Types
  import opened Paths
  import opened Tree
  import opened Updates
  import opened Traces

  predicate IsDelete(u: Update) {
    u.DeleteKey? || u.DeleteBucket?
  }

  /** The put `u` is disturbed by a put on an overlapping path, and by a deletion of its path or one above it. */
  predicate Disturbs(u: Update, w: Update) {
    u.PutKey? && ((w.PutKey? && Comparable(Target(u), Target(w))) || (IsDelete(w) && Target(w) <= Target(u)))
  }

  predicate Conflict(u: Update, w: Update) {
    u != w && (Disturbs(u, w) || Disturbs(w, u))
  }

  /** In terms of path strings, overlapping is being a slash-prefix one way or the other. */
  lemma ConflictOnStrings(u: Update, w: Update)
    requires u.PutKey? && u != w && (w.PutKey? || IsDelete(w))
    ensures Conflict(u, w) <==> SlashPrefix(w.key, u.key) || (w.PutKey? && SlashPrefix(u.key, w.key))
  {
    PrefixIsSlashPrefix(u.key, w.key);
    PrefixIsSlashPrefix(w.key, u.key);
  }

  // --- Pairs that do not conflict commute -------------------------------------------------------------------

  /** An update on a path that is not comparable neither helps nor hinders. */
  lemma FiresElsewhere(t: Tree, u: Update, w: Update)
    requires !Comparable(Target(u), Target(w))
    ensures Fires(Apply(t, w), u) == Fires(t, u)
  {
    var p := Target(u);
    LookApply(t, w, p);
    forall r | r < p ensures Look(Apply(t, w), r).Stored? == Look(t, r).Stored? {
      LookApply(t, w, r);
    }
  }

  lemma ElsewhereCommutes(t: Tree, u: Update, w: Update)
    requires !Comparable(Target(u), Target(w))
    ensures Apply(Apply(t, u), w) == Apply(Apply(t, w), u)
  {
    FiresElsewhere(t, u, w);
    FiresElsewhere(t, w, u);
    forall q ensures Look(Apply(Apply(t, u), w), q) == Look(Apply(Apply(t, w), u), q) {
      LookApply(t, u, q);
      LookApply(Apply(t, u), w, q);
      LookApply(t, w, q);
      LookApply(Apply(t, w), u, q);
      if Target(u) <= q && Target(w) <= q { PrefixesCompare(Target(u), Target(w), q); }
    }
    SameView(Apply(Apply(t, u), w), Apply(Apply(t, w), u));
  }

  /** A put above a path and a deletion at that path cannot both do anything. */
  lemma PutAboveDelete(t: Tree, u: Update, w: Update)
    requires u.PutKey? && IsDelete(w) && Target(u) < Target(w)
    ensures Apply(Apply(t, u), w) == Apply(Apply(t, w), u)
  {
    var p, q := Target(u), Target(w);
    LookApply(t, u, p);
    LookApply(t, w, p);
    if Look(t, p) != Directory { NothingBelow(t, p, q); }
    if Fires(t, u) { NothingBelow(Apply(t, u), p, q); }
  }

  /** The deletion at or above a path, and the one at that path, leave the same whatever comes first. */
  lemma DeletesCommute(t: Tree, u: Update, w: Update)
    requires IsDelete(u) && IsDelete(w) && Target(u) <= Target(w)
    ensures Apply(Apply(t, u), w) == Apply(Apply(t, w), u)
  {
    var p, q := Target(u), Target(w);
    PrefixOrEqual(p, q);
    LookApply(t, u, p);
    LookApply(t, u, q);
    LookApply(t, w, p);
    if p < q && Look(t, p) != Directory { NothingBelow(t, p, q); }
    if Fires(t, u) && Fires(t, w) {
      forall r ensures Look(Apply(Apply(t, u), w), r) == Look(Apply(Apply(t, w), u), r) {
        LookApply(t, u, r);
        LookApply(Apply(t, u), w, r);
        LookApply(t, w, r);
        LookApply(Apply(t, w), u, r);
      }
      SameView(Apply(Apply(t, u), w), Apply(Apply(t, w), u));
    }
  }

  lemma UpdatesCommute(t: Tree, u: Update, w: Update)
    requires !Conflict(u, w)
    ensures Apply(Apply(t, u), w) == Apply(Apply(t, w), u)
  {
    var p, q := Target(u), Target(w);
    if !Comparable(p, q) {
      ElsewhereCommutes(t, u, w);
    } else if IsDelete(u) && IsDelete(w) {
      if p <= q { DeletesCommute(t, u, w); } else { DeletesCommute(t, w, u); }
    } else if u.PutKey? && IsDelete(w) {
      PrefixOrEqual(p, q);
      PutAboveDelete(t, u, w);
    } else if w.PutKey? && IsDelete(u) {
      PrefixOrEqual(q, p);
      PutAboveDelete(t, w, u);
    }
  }

  // --- Pairs that conflict do not ---------------------------------------------------------------------------

  predicate Possible(u: Update) {
    u.PutKey? ==> "" !in Target(u)
  }

  lemma PutIntoEmptyFires(u: Update)
    requires u.PutKey? && Possible(u)
    ensures Fires(EMPTY, u)
  {
    forall r | r <= Target(u) ensures Look(EMPTY, r) == if r == [] then Directory else Absent { LookEmpty(r); }
  }

  /** A put on a path that holds a value replaces the value. */
  lemma StoredStays(t: Tree, u: Update, w: Update)
    requires u.PutKey? && w.PutKey? && Target(u) == Target(w)
    requires Fires(EMPTY, u) && t == Apply(EMPTY, u)
    ensures Look(Apply(t, w), Target(w)) == Stored(w.value)
  {
    PutCanBeRepeated(EMPTY, u);
    LookApply(t, w, Target(w));
  }

  lemma PutsDiverge(u: Update, w: Update)
    requires u.PutKey? && w.PutKey? && Possible(u) && Possible(w) && u != w
    requires Target(u) <= Target(w)
    ensures Apply(Apply(EMPTY, u), w) != Apply(Apply(EMPTY, w), u)
  {
    var p, q := Target(u), Target(w);
    PrefixOrEqual(p, q);
    PutIntoEmptyFires(u);
    PutIntoEmptyFires(w);
    var tu, tw := Apply(EMPTY, u), Apply(EMPTY, w);
    LookApply(EMPTY, u, p);
    LookApply(EMPTY, w, p);
    if p == q {
      ComponentsInjective(u.key, w.key);
      StoredStays(tu, u, w);
      StoredStays(tw, w, u);
    } else {
      assert !Fires(tu, w) && !Fires(tw, u);
    }
  }

  /** A tree with just what a deletion needs in order to fire. */
  function Prey(w: Update, obj: KVObject): Tree {
    Graft(EMPTY, Target(w), if w.DeleteKey? then Leaf(obj) else EMPTY)
  }

  lemma LookPrey(w: Update, obj: KVObject, r: Path)
    requires IsDelete(w)
    ensures Look(Prey(w, obj), r) ==
            if r == Target(w) && w.DeleteKey? then Stored(obj)
            else if r <= Target(w) then Directory
            else Absent
  {
    var q := Target(w);
    LookGraft(EMPTY, q, if w.DeleteKey? then Leaf(obj) else EMPTY, r);
    if q <= r {
      PrefixOrEqual(q, r);
      LookEmpty(r[|q|..]);
    } else {
      LookEmpty(r);
    }
    if r <= q { PrefixOrEqual(r, q); }
  }

  lemma PreyIsWellFormed(w: Update, obj: KVObject)
    requires IsDelete(w) && "" !in Target(w)
    ensures WellFormed(Prey(w, obj))
  {
    var q := Target(w);
    LookPrey(w, obj, []);
    forall r, i | Look(Prey(w, obj), r) != Absent && 0 <= i < |r| ensures r[i] != "" && NoSlash(r[i]) {
      LookPrey(w, obj, r);
      assert r[i] == q[i] && q[i] in q;
    }
  }

  /** Deleting first makes room for the put. */
  lemma DeletionMakesRoom(u: Update, w: Update)
    requires u.PutKey? && Possible(u) && IsDelete(w) && Target(w) <= Target(u)
    ensures Fires(Apply(Prey(w, u.value), w), u)
  {
    var p, q, t := Target(u), Target(w), Prey(w, u.value);
    PrefixOrEqual(q, p);
    LookPrey(w, u.value, q);
    forall r | r < p ensures !Look(Apply(t, w), r).Stored? {
      LookPrey(w, u.value, r);
      LookApply(t, w, r);
    }
    LookApply(t, w, p);
  }

  lemma PutAndDeleteDiverge(u: Update, w: Update)
    requires u.PutKey? && Possible(u) && IsDelete(w) && Target(w) <= Target(u)
    ensures var t := Prey(w, u.value);
            Apply(Apply(t, u), w) != Apply(Apply(t, w), u)
  {
    var p, q, t := Target(u), Target(w), Prey(w, u.value);
    PrefixOrEqual(q, p);
    LookPrey(w, u.value, q);
    LookPrey(w, u.value, p);
    DeletionMakesRoom(u, w);
    LookApply(Apply(t, w), u, p);
    // Deleting last removes what was put, if it was put at all.
    var full := Apply(t, u);
    LookApply(t, u, q);
    LookApply(t, u, p);
    assert q < p && w.DeleteKey? ==> !Fires(t, u);
    LookApply(full, w, p);
  }

  /** Two updates commute on every tree exactly when they do not conflict. */
  lemma ConflictIsExact(u: Update, w: Update)
    requires Possible(u) && Possible(w)
    ensures !Conflict(u, w) <==> forall t :: Apply(Apply(t, u), w) == Apply(Apply(t, w), u)
  {
    if !Conflict(u, w) {
      forall t ensures Apply(Apply(t, u), w) == Apply(Apply(t, w), u) { UpdatesCommute(t, u, w); }
    } else if u.PutKey? && w.PutKey? {
      if Target(u) <= Target(w) { PutsDiverge(u, w); } else { PutsDiverge(w, u); }
    } else if u.PutKey? {
      PutAndDeleteDiverge(u, w);
    } else {
      PutAndDeleteDiverge(w, u);
    }
  }

  // --- Runs -------------------------------------------------------------------------------------------------

  lemma {:induction false} RunIsRunAll(t: Tree, us: seq<Update>)
    ensures Run(t, us) == RunAll(Apply, t, us)
    decreases |us|
  {
    if us != [] { RunIsRunAll(Apply(t, us[0]), us[1..]); }
  }

  /** Trace convergence, successful and failing updates alike. */
  lemma ReplicasConverge(t: Tree, us: seq<Update>, ws: seq<Update>)
    requires Reordering(Conflict, us, ws)
    ensures Run(t, us) == Run(t, ws)
  {
    forall s, u, w | !Conflict(u, w) ensures Apply(Apply(s, u), w) == Apply(Apply(s, w), u) {
      UpdatesCommute(s, u, w);
    }
    RunIsRunAll(t, us);
    RunIsRunAll(t, ws);
    ReorderedRunsAgree(Apply, Conflict, t, us, ws);
  }
}
