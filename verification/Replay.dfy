/**
 * Replaying an emitted log over a tree that already contains some or all of its effects. A late joiner does
 * this: it takes a snapshot of another node, then applies every update queued since before the snapshot.
 */
module Replay {
  import opened Types
  import opened Paths
  import opened Tree
  import opened Updates

  /** A log as a node emits it: deletions always, puts only when they went through. */
  ghost predicate Emittable(t: Tree, us: seq<Update>)
    decreases |us|
  {
    us != [] ==> (us[0].PutKey? ==> Fires(t, us[0])) && Emittable(Apply(t, us[0]), us[1..])
  }

  /** The messages one local put or deletion gives rise to. */
  ghost function Emitted(t: Tree, u: Update): seq<Update> {
    if u.PutKey? && !Fires(t, u) then [] else [u]
  }

  ghost function EmittedLog(t: Tree, us: seq<Update>): seq<Update>
    decreases |us|
  {
    if us == [] then [] else Emitted(t, us[0]) + EmittedLog(Apply(t, us[0]), us[1..])
  }

  /** What a node emits is an emittable log that rebuilds the node's own tree. */
  lemma {:induction false} EmittedLogIsFaithful(t: Tree, us: seq<Update>)
    ensures Emittable(t, EmittedLog(t, us))
    ensures Run(t, EmittedLog(t, us)) == Run(t, us)
    decreases |us|
  {
    if us != [] {
      var rest := EmittedLog(Apply(t, us[0]), us[1..]);
      EmittedLogIsFaithful(Apply(t, us[0]), us[1..]);
      if us[0].PutKey? && !Fires(t, us[0]) {
        assert EmittedLog(t, us) == rest;
      } else {
        assert EmittedLog(t, us)[1..] == rest;
      }
    }
  }

  lemma {:induction false} EmittableSplit(t: Tree, us: seq<Update>, k: nat)
    requires k <= |us| && Emittable(t, us)
    ensures Emittable(t, us[..k]) && Emittable(Run(t, us[..k]), us[k..])
    ensures Run(Run(t, us[..k]), us[k..]) == Run(t, us)
    decreases k
  {
    assert us == us[..k] + us[k..];
    RunAppend(t, us[..k], us[k..]);
    if k > 0 {
      assert us[1..][..k - 1] == us[..k][1..] && us[1..][k - 1..] == us[k..];
      EmittableSplit(Apply(t, us[0]), us[1..], k - 1);
    }
  }

  lemma {:induction false} EmittableAppend(t: Tree, us: seq<Update>, ws: seq<Update>)
    requires Emittable(t, us) && Emittable(Run(t, us), ws)
    ensures Emittable(t, us + ws)
    decreases |us|
  {
    if us == [] {
      assert us + ws == ws;
    } else {
      assert (us + ws)[1..] == us[1..] + ws;
      EmittableAppend(Apply(t, us[0]), us[1..], ws);
    }
  }

  // --- Trees woven from several moments ---------------------------------------------------------------------

  /** The tree after the first `n` updates of a log. */
  ghost function After(t: Tree, log: seq<Update>, n: nat): Tree
    requires n <= |log|
  {
    Run(t, log[..n])
  }

  lemma AfterNext(t: Tree, log: seq<Update>, m: nat)
    requires Emittable(t, log) && m < |log|
    ensures After(t, log, m + 1) == Apply(After(t, log, m), log[m])
    ensures log[m].PutKey? ==> Fires(After(t, log, m), log[m])
  {
    var o, u := After(t, log, m), log[m];
    assert log[..m + 1] == log[..m] + [u];
    RunAppend(t, log[..m], [u]);
    assert [u][1..] == [] && Run(Apply(o, u), []) == Apply(o, u);
    EmittableSplit(t, log, m);
    assert log[m..][0] == u;
  }

  /** At some moment from `lo` to `hi` the log's trees show `x` at `q`. */
  ghost predicate Seen(x: Entry, q: Path, t: Tree, log: seq<Update>, lo: nat, hi: nat)
    requires hi <= |log|
  {
    exists i :: lo <= i <= hi && x == Look(After(t, log, i), q)
  }

  /** From moment `lo` to moment `hi` the log's trees do not all show the same at `q`. */
  ghost predicate Varies(q: Path, t: Tree, log: seq<Update>, lo: nat, hi: nat)
    requires hi <= |log|
  {
    exists i, j :: lo <= i <= hi && lo <= j <= hi && Look(After(t, log, i), q) != Look(After(t, log, j), q)
  }

  ghost predicate Woven(x: Entry, q: Path, t: Tree, log: seq<Update>, lo: nat, hi: nat)
    requires hi <= |log|
  {
    Seen(x, q, t, log, lo, hi) || (x == Absent && Varies(q, t, log, lo, hi))
  }

  /**
   * `u` is woven from the log's trees of the moments `lo` to `hi`: each path shows what one of them shows, or
   * nothing at all where they are not all alike.
   */
  ghost predicate Weave(u: Tree, t: Tree, log: seq<Update>, lo: nat, hi: nat) {
    lo <= hi <= |log| && forall q :: Woven(Look(u, q), q, t, log, lo, hi)
  }

  lemma WeaveOfOne(u: Tree, t: Tree, log: seq<Update>, k: nat)
    requires Weave(u, t, log, k, k)
    ensures u == After(t, log, k)
  {
    forall q ensures Look(u, q) == Look(After(t, log, k), q) {
      assert Woven(Look(u, q), q, t, log, k, k);
    }
    SameView(u, After(t, log, k));
  }

  lemma MomentIsWeave(t: Tree, log: seq<Update>, k: nat)
    requires k <= |log|
    ensures Weave(After(t, log, k), t, log, k, k)
  {
    forall q ensures Woven(Look(After(t, log, k), q), q, t, log, k, k) {
      assert Seen(Look(After(t, log, k), q), q, t, log, k, k);
    }
  }

  lemma WidenWeave(u: Tree, t: Tree, log: seq<Update>, lo: nat, hi: nat, lo': nat, hi': nat)
    requires Weave(u, t, log, lo, hi) && lo' <= lo && hi <= hi' <= |log|
    ensures Weave(u, t, log, lo', hi')
  {
    forall q ensures Woven(Look(u, q), q, t, log, lo', hi') {
      assert Woven(Look(u, q), q, t, log, lo, hi);
    }
  }

  lemma WeaveUnderLongerLog(u: Tree, t: Tree, log: seq<Update>, more: seq<Update>, lo: nat, hi: nat)
    requires Weave(u, t, log, lo, hi)
    ensures Weave(u, t, log + more, lo, hi)
  {
    forall i | 0 <= i <= hi ensures After(t, log + more, i) == After(t, log, i) {
      assert (log + more)[..i] == log[..i];
    }
    forall q ensures Woven(Look(u, q), q, t, log + more, lo, hi) {
      assert Woven(Look(u, q), q, t, log, lo, hi);
      if Seen(Look(u, q), q, t, log, lo, hi) {
        var i :| lo <= i <= hi && Look(u, q) == Look(After(t, log, i), q);
        assert Look(u, q) == Look(After(t, log + more, i), q);
      } else {
        var i, j :| lo <= i <= hi && lo <= j <= hi && Look(After(t, log, i), q) != Look(After(t, log, j), q);
        assert Look(After(t, log + more, i), q) != Look(After(t, log + more, j), q);
      }
    }
  }

  /** The window of moments without `i`, if `i` is its first. */
  function Past(lo: nat, i: nat): nat {
    if i == lo then lo + 1 else lo
  }

  /** A path that moment `i` and the next show alike does not need moment `i`. */
  lemma PastQuietMoment(x: Entry, q: Path, t: Tree, log: seq<Update>, lo: nat, hi: nat, i: nat)
    requires lo <= i < hi <= |log| && Woven(x, q, t, log, lo, hi)
    requires Look(After(t, log, i + 1), q) == Look(After(t, log, i), q)
    ensures Woven(x, q, t, log, Past(lo, i), hi)
  {
    if Seen(x, q, t, log, lo, hi) {
      var k :| lo <= k <= hi && x == Look(After(t, log, k), q);
      var k' := if k == i then i + 1 else k;
      assert x == Look(After(t, log, k'), q);
    } else {
      var j, k :| lo <= j <= hi && lo <= k <= hi && Look(After(t, log, j), q) != Look(After(t, log, k), q);
      var j', k' := if j == i then i + 1 else j, if k == i then i + 1 else k;
      assert Look(After(t, log, j'), q) != Look(After(t, log, k'), q);
    }
  }

  /** What a woven tree shows, other than nothing, was there at some moment. */
  lemma ShownAtMoment(u: Tree, t: Tree, log: seq<Update>, lo: nat, hi: nat, q: Path) returns (k: nat)
    requires Weave(u, t, log, lo, hi) && Look(u, q) != Absent
    ensures lo <= k <= hi && Look(u, q) == Look(After(t, log, k), q)
  {
    assert Woven(Look(u, q), q, t, log, lo, hi);
    k :| lo <= k <= hi && Look(u, q) == Look(After(t, log, k), q);
  }

  /** A value above a path, shared by two trees, makes them alike along the path. */
  lemma AlikeAlongValue(u: Tree, e: Tree, r: Path, q: Path, p: Path)
    requires r < p && q <= p
    requires Look(u, r).Stored? && Look(u, r) == Look(e, r)
    ensures Look(u, q) == Look(e, q)
  {
    PrefixesCompare(q, r, p);
    if q <= r { PrefixOrEqual(q, r); } else { PrefixOrEqual(r, q); }
    if r < q {
      NothingBelow(u, r, q);
      NothingBelow(e, r, q);
    } else if q < r {
      AboveIsDirectory(u, q, r);
      AboveIsDirectory(e, q, r);
    }
  }

  /** A put that fails on a woven tree is blocked by something from another moment than its own. */
  lemma BlockedPut(u: Tree, t: Tree, log: seq<Update>, lo: nat, hi: nat, i: nat, q: Path) returns (k: nat)
    requires Weave(u, t, log, lo, hi) && lo <= i < hi
    requires log[i].PutKey? && Fires(After(t, log, i), log[i]) && !Fires(u, log[i]) && q <= Target(log[i])
    ensures lo <= k <= hi && k != i && Look(u, q) == Look(After(t, log, k), q)
  {
    var p := Target(log[i]);
    if Look(u, p).Directory? {
      k := ShownAtMoment(u, t, log, lo, hi, p);
      PrefixOrEqual(q, p);
      if q < p {
        AboveIsDirectory(u, q, p);
        AboveIsDirectory(After(t, log, k), q, p);
      }
    } else {
      var r :| r < p && Look(u, r).Stored?;
      k := ShownAtMoment(u, t, log, lo, hi, r);
      AlikeAlongValue(u, After(t, log, k), r, q, p);
    }
  }

  lemma WeavePut(u: Tree, t: Tree, log: seq<Update>, lo: nat, hi: nat, i: nat, q: Path)
    requires Emittable(t, log) && Weave(u, t, log, lo, hi) && lo <= i < hi && log[i].PutKey?
    ensures Woven(Look(Apply(u, log[i]), q), q, t, log, Past(lo, i), hi)
  {
    var w := log[i];
    AfterNext(t, log, i);
    LookApply(After(t, log, i), w, q);
    LookApply(u, w, q);
    assert Woven(Look(u, q), q, t, log, lo, hi);
    if !(q <= Target(w)) {
      PastQuietMoment(Look(u, q), q, t, log, lo, hi, i);
    } else if Fires(u, w) {
      PrefixOrEqual(q, Target(w));
      assert Look(Apply(u, w), q) == Look(After(t, log, i + 1), q);
    } else {
      var k := BlockedPut(u, t, log, lo, hi, i, q);
      assert Look(Apply(u, w), q) == Look(After(t, log, k), q);
    }
  }

  /** A deletion that did something at its own moment. */
  lemma WeaveTrueDelete(u: Tree, t: Tree, log: seq<Update>, lo: nat, hi: nat, i: nat, q: Path)
    requires Emittable(t, log) && Weave(u, t, log, lo, hi) && lo <= i < hi && !log[i].PutKey?
    requires Fires(After(t, log, i), log[i]) && Target(log[i]) <= q
    ensures Woven(Look(Apply(u, log[i]), q), q, t, log, Past(lo, i), hi)
  {
    var w, o, p := log[i], After(t, log, i), Target(log[i]);
    AfterNext(t, log, i);
    LookApply(o, w, q);
    LookApply(u, w, q);
    assert Look(After(t, log, i + 1), q) == Absent;
    if Look(Apply(u, w), q) != Absent {
      var k := ShownAtMoment(u, t, log, lo, hi, q);
      PrefixOrEqual(p, q);
      if p < q {
        AboveIsDirectory(u, p, q);
        if k == i { AboveIsDirectory(o, p, q); }
      }
      assert k != i;
    }
  }

  /** A deletion that found nothing to delete at its own moment. */
  lemma WeaveIdleDelete(u: Tree, t: Tree, log: seq<Update>, lo: nat, hi: nat, i: nat, q: Path)
    requires Emittable(t, log) && Weave(u, t, log, lo, hi) && lo <= i < hi && !log[i].PutKey?
    requires !Fires(After(t, log, i), log[i]) && Target(log[i]) <= q
    ensures Woven(Look(Apply(u, log[i]), q), q, t, log, Past(lo, i), hi)
  {
    var w, o, p := log[i], After(t, log, i), Target(log[i]);
    AfterNext(t, log, i);
    LookApply(u, w, q);
    assert Woven(Look(u, q), q, t, log, lo, hi);
    PastQuietMoment(Look(u, q), q, t, log, lo, hi, i);
    if Fires(u, w) {
      PrefixOrEqual(p, q);
      if p == q {
        var k := ShownAtMoment(u, t, log, lo, hi, p);
        assert Look(After(t, log, k), p) != Look(After(t, log, i + 1), p);
      } else if w.DeleteKey? {
        NothingBelow(u, p, q);
      } else {
        NothingBelow(o, p, q);
        assert Look(After(t, log, i + 1), q) == Absent;
      }
    }
  }

  lemma WeaveDelete(u: Tree, t: Tree, log: seq<Update>, lo: nat, hi: nat, i: nat, q: Path)
    requires Emittable(t, log) && Weave(u, t, log, lo, hi) && lo <= i < hi && !log[i].PutKey?
    ensures Woven(Look(Apply(u, log[i]), q), q, t, log, Past(lo, i), hi)
  {
    if Target(log[i]) <= q {
      if Fires(After(t, log, i), log[i]) {
        WeaveTrueDelete(u, t, log, lo, hi, i, q);
      } else {
        WeaveIdleDelete(u, t, log, lo, hi, i, q);
      }
    } else {
      AfterNext(t, log, i);
      LookApply(After(t, log, i), log[i], q);
      LookApply(u, log[i], q);
      assert Woven(Look(u, q), q, t, log, lo, hi);
      PastQuietMoment(Look(u, q), q, t, log, lo, hi, i);
    }
  }

  /**
   * An update of the log keeps a woven tree woven, whichever update of the window it is; the first update of
   * the window moves the window along.
   */
  lemma WeaveStep(u: Tree, t: Tree, log: seq<Update>, lo: nat, hi: nat, i: nat)
    requires Emittable(t, log) && Weave(u, t, log, lo, hi) && lo <= i < hi
    ensures Weave(Apply(u, log[i]), t, log, Past(lo, i), hi)
  {
    forall q ensures Woven(Look(Apply(u, log[i]), q), q, t, log, Past(lo, i), hi) {
      if log[i].PutKey? {
        WeavePut(u, t, log, lo, hi, i, q);
      } else {
        WeaveDelete(u, t, log, lo, hi, i, q);
      }
    }
  }

  /** From any tree woven from the moments `m` to the end, the rest of the log leads to the end. */
  lemma {:induction false} CatchUp(u: Tree, t: Tree, log: seq<Update>, m: nat)
    requires Emittable(t, log) && Weave(u, t, log, m, |log|)
    ensures Run(u, log[m..]) == Run(t, log)
    decreases |log| - m
  {
    if m == |log| {
      WeaveOfOne(u, t, log, m);
      assert log[..m] == log && log[m..] == [];
    } else {
      WeaveStep(u, t, log, m, |log|, m);
      CatchUp(Apply(u, log[m]), t, log, m + 1);
      assert log[m..][0] == log[m] && log[m..][1..] == log[m + 1..];
    }
  }

  /**
   * Snapshot join: from a snapshot that is the tree of any moment from `j` on, or is itself woven from such
   * moments, all updates from the `j`-th on lead to exactly the origin's tree.
   */
  lemma SnapshotJoin(t: Tree, log: seq<Update>, snapshot: Tree, j: nat, lo: nat, hi: nat)
    requires Emittable(t, log) && Weave(snapshot, t, log, lo, hi) && j <= lo
    ensures Run(snapshot, log[j..]) == Run(t, log)
  {
    WidenWeave(snapshot, t, log, lo, hi, j, |log|);
    CatchUp(snapshot, t, log, j);
  }

  /** Replaying an emitted log over the state it led to changes nothing, empty buckets included. */
  lemma ReplayChangesNothing(t: Tree, us: seq<Update>)
    requires Emittable(t, us)
    ensures Run(Run(t, us), us) == Run(t, us)
  {
    assert us[..|us|] == us && us[0..] == us;
    MomentIsWeave(t, us, |us|);
    SnapshotJoin(t, us, Run(t, us), 0, |us|, |us|);
  }

  lemma RunTwo(t: Tree, u: Update, w: Update)
    ensures Run(t, [u, w]) == Apply(Apply(t, u), w)
  {
    assert [u, w][1..] == [w];
    assert Run(Apply(t, u), [w]) == Run(Apply(Apply(t, u), w), []);
  }

  /**
   * Emitting failed puts too would break this: a put under a value, followed by the deletion of that value,
   * fails the first time round and goes through on replay.
   */
  lemma FailedPutsMustNotBeEmitted(t: Tree, key: string, blocker: string, obj: KVObject)
    requires Look(t, Components(blocker)).Stored? && blocker + "/" <= key && "" !in Components(key)
    ensures var log := [PutKey(key, obj), DeleteKey(blocker)];
            Run(Run(t, log), log) != Run(t, log)
  {
    var p, b := Components(key), Components(blocker);
    var put, del := PutKey(key, obj), DeleteKey(blocker);
    var log := [put, del];
    PrefixIsSlashPrefix(blocker, key);
    assert b < p by {
      if b == p { ComponentsInjective(blocker, key); }
    }
    RunTwo(t, put, del);
    var end := Apply(t, del);
    RunTwo(end, put, del);
    assert Run(t, log) == end;
    LookApply(t, del, b);
    forall r | r <= p ensures !Look(end, r).Stored? && (r == p ==> Look(end, r) == Absent) {
      LookApply(t, del, r);
      if b < r {
        NothingBelow(t, b, r);
      } else if r < b {
        AboveIsDirectory(t, r, b);
      } else {
        PrefixesCompare(r, b, p);
      }
    }
    LookApply(end, put, p);
    LookApply(end, put, b);
    LookApply(Apply(end, put), del, p);
    LookApply(t, del, p);
  }
}
