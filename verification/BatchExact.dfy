/**
 * Exactly which batches the other nodes follow under every schedule, and exactly which batches leave the same
 * tree under every schedule. Both are decided by the writes alone.
 */
module BatchExact {
  import opened Types
  import opened Paths
  import opened Tree
  import opened Updates
  import opened Convergence
  import opened Traces
  import opened Counting
  import opened Batch
  import opened BatchBroadcast
  import opened Schedules

  /** Taking a step for one of these queries applies its write or does nothing. */
  ghost predicate AppliesWrites(step: (Tree, nat) -> Tree, rs: seq<Request>, ids: seq<nat>) {
    forall t, id :: id in ids ==>
      step(t, id) == t || (Written(rs, id).Some? && step(t, id) == Apply(t, Written(rs, id).value))
  }

  predicate WritesAt(rs: seq<Request>, id: nat, p: Path) {
    Written(rs, id).Some? && Target(Written(rs, id).value) == p
  }

  /** Writes on other paths neither change an object that is stored at `p` nor store one there. */
  lemma OtherWriteKeeps(t: Tree, w: Update, p: Path)
    requires (w.PutKey? || w.DeleteKey?) && Target(w) != p
    ensures Look(t, p).Stored? ==> Look(Apply(t, w), p) == Look(t, p)
    ensures Look(Apply(t, w), p).Stored? ==> Look(Apply(t, w), p) == Look(t, p)
  {
    LookApply(t, w, p);
    if Look(t, p).Stored? && !Look(Apply(t, w), p).Stored? { OnlyDeletionUnstores(t, w, p); }
  }

  lemma {:induction false} OthersKeep(step: (Tree, nat) -> Tree, rs: seq<Request>, ids: seq<nat>, t: Tree, p: Path)
    requires AppliesWrites(step, rs, ids) && forall id :: id in ids ==> !WritesAt(rs, id, p)
    ensures Look(t, p).Stored? ==> Look(RunAll(step, t, ids), p) == Look(t, p)
    ensures Look(RunAll(step, t, ids), p).Stored? ==> Look(RunAll(step, t, ids), p) == Look(t, p)
    decreases |ids|
  {
    if ids != [] {
      assert ids[0] in ids;
      if step(t, ids[0]) != t { OtherWriteKeeps(t, Written(rs, ids[0]).value, p); }
      OthersKeep(step, rs, ids[1..], step(t, ids[0]), p);
    }
  }

  // --- A clashing pair --------------------------------------------------------------------------------------

  /** A deletion strictly above the put. */
  predicate DeletesAbove(u: Update, x: Update) {
    x.DeleteKey? && Target(x) < Target(u)
  }

  /** A tree on which a put `u` and an update `x` that clashes with it do not commute. */
  function Stage(u: Update, x: Update): Tree
    requires u.PutKey?
  {
    if DeletesAbove(u, x) then Prey(x, u.value) else EMPTY
  }

  /** What makes a tree such a tree. */
  ghost predicate Primed(t: Tree, u: Update, x: Update)
    requires u.PutKey?
  {
    if DeletesAbove(u, x) then Look(t, Target(x)).Stored? else PutOk(t, Target(u))
  }

  lemma StageIsPrimed(u: Update, x: Update)
    requires Clash(u, x)
    ensures WellFormed(Stage(u, x)) && Primed(Stage(u, x), u, x)
  {
    EmptyIsWellFormed();
    if DeletesAbove(u, x) {
      forall c | c in Target(x) ensures c != "" { assert c in Target(u); }
      PreyIsWellFormed(x, u.value);
      LookPrey(x, u.value, Target(x));
    } else {
      PutIntoEmptyFires(u);
    }
  }

  lemma PrimedStays(t: Tree, u: Update, x: Update, w: Update)
    requires Meets(u, x) && Primed(t, u, x) && (w.PutKey? || w.DeleteKey?) && Target(w) == Target(u)
    ensures Primed(Apply(t, w), u, x)
  {
    if DeletesAbove(u, x) {
      OtherWriteKeeps(t, w, Target(x));
    } else {
      LookApply(t, w, Target(u));
      forall r | r < Target(u) ensures !Look(Apply(t, w), r).Stored? { OtherWriteKeeps(t, w, r); }
    }
  }

  lemma {:induction false} PrimedThrough(
      step: (Tree, nat) -> Tree, rs: seq<Request>, ids: seq<nat>, t: Tree, u: Update, x: Update)
    requires Meets(u, x) && Primed(t, u, x)
    requires AppliesWrites(step, rs, ids) && forall id :: id in ids ==> WritesAt(rs, id, Target(u))
    ensures Primed(RunAll(step, t, ids), u, x)
    decreases |ids|
  {
    if ids != [] {
      assert ids[0] in ids;
      PrimedStays(t, u, x, Written(rs, ids[0]).value);
      PrimedThrough(step, rs, ids[1..], step(t, ids[0]), u, x);
    }
  }

  /** After `x` the put goes through; before a deletion above it does not. */
  lemma PutAfterOther(t: Tree, u: Update, x: Update)
    requires Meets(u, x) && Primed(t, u, x)
    ensures Fires(Apply(t, x), u) && (x.PutKey? ==> Fires(t, x))
    ensures Look(Apply(Apply(t, x), u), Target(u)) == Stored(u.value)
  {
    var p, q := Target(u), Target(x);
    if DeletesAbove(u, x) {
      LookApply(t, x, p);
      forall r | r < p ensures !Look(Apply(t, x), r).Stored? {
        LookApply(t, x, r);
        PrefixesCompare(q, r, p);
        if r <= q { PrefixOrEqual(r, q); }
        if r < q { AboveIsDirectory(t, r, q); }
      }
    } else {
      PrefixOrEqual(q, p);
      PrimedStays(t, u, x, x);
    }
    LookApply(Apply(t, x), u, p);
  }

  lemma OtherAfterPut(t: Tree, u: Update, x: Update)
    requires Clash(u, x) && Primed(t, u, x)
    ensures Look(Apply(Apply(t, u), x), Target(u)) != Stored(u.value)
  {
    var p, q := Target(u), Target(x);
    LookApply(Apply(t, u), x, p);
    if x.PutKey? {
      if x.value == u.value { ComponentsInjective(x.key, u.key); }
      PrimedStays(t, u, x, u);
    } else {
      PrefixOrEqual(q, p);
      LookApply(t, u, p);
      if q < p {
        NothingBelow(t, q, p);
      }
    }
  }

  // --- A schedule around it ---------------------------------------------------------------------------------

  lemma Spliced(pre: seq<nat>, a: nat, b: nat, post: seq<nat>)
    requires Distinct(pre) && Distinct(post) && a != b
    requires forall x :: x in pre ==> x !in post && x != a && x != b
    requires forall x :: x in post ==> x != a && x != b
    ensures Distinct(pre + [a, b] + post)
    ensures forall x :: x in pre + [a, b] + post <==> x in pre || x == a || x == b || x in post
  {
    DistinctAppend(pre, [a, b]);
    DistinctAppend(pre + [a, b], post);
  }

  function WritersAt(rs: seq<Request>, p: Path): set<nat> {
    set id: nat | id < |rs| && WritesAt(rs, id, p)
  }

  /** The other queries in two lists: the early ones and the rest. */
  lemma SetApart(rs: seq<Request>, i: nat, j: nat, early: set<nat>) returns (pre: seq<nat>, post: seq<nat>)
    requires i != j && Written(rs, i).Some? && Written(rs, j).Some?
    ensures Permutes(rs, pre + [i, j] + post) && Permutes(rs, pre + [j, i] + post)
    ensures forall id :: id in pre ==> id in early
    ensures forall id :: id in post ==> id < |rs| && id !in early && id != i && id != j
    ensures early == {} ==> pre == []
  {
    var others := set id: nat | id < |rs| && VerbOf(rs[id].query) != Invalid && id != i && id != j;
    if early == {} { pre := []; } else { pre := ListOf(others * early); }
    post := ListOf(others - early);
    Spliced(pre, i, j, post);
    Spliced(pre, j, i, post);
  }

  lemma RunSpliced(step: (Tree, nat) -> Tree, t: Tree, pre: seq<nat>, i: nat, j: nat, post: seq<nat>)
    ensures RunAll(step, t, pre + [i, j] + post) == RunAll(step, step(step(RunAll(step, t, pre), i), j), post)
  {
    RunAllAppend(step, t, pre + [i, j], post);
    RunAllAppend(step, t, pre, [i, j]);
    var s := RunAll(step, t, pre);
    assert [i, j][0] == i && [i, j][1..] == [j] && [j][1..] == [];
    assert RunAll(step, s, [i, j]) == RunAll(step, step(s, i), [j]) == RunAll(step, step(step(s, i), j), []);
  }

  /** What is received in the order of the commits makes the trees of the commits. */
  lemma {:induction false} ReceivedIsCommitted(
      t: Tree, rs: seq<Request>, order: seq<nat>, outs: map<nat, seq<Update>>, k: nat)
    requires k <= |order| && forall l: nat :: l < |order| ==> CommittedAt(t, rs, order, outs, l)
    ensures RunAll(Receive(outs), t, order[..k]) == AfterCommits(t, rs, order, k)
    decreases k
  {
    if k > 0 {
      ReceivedIsCommitted(t, rs, order, outs, k - 1);
      assert CommittedAt(t, rs, order, outs, k - 1);
      NextCommit(t, rs, order, k - 1);
      RunAllLast(Receive(outs), t, order[..k - 1], order[k - 1]);
      assert order[..k] == order[..k - 1] + [order[k - 1]];
    }
  }

  lemma ReceivingAppliesWrites(t: Tree, rs: seq<Request>, s: State, ids: seq<nat>)
    requires Announcing(t, rs, s)
    ensures AppliesWrites(Receive(s.outs), rs, ids)
  {
    forall t', id | id in ids
      ensures Receive(s.outs)(t', id) == t'
        || (Written(rs, id).Some? && Receive(s.outs)(t', id) == Apply(t', Written(rs, id).value))
    {
      if OutOf(s.outs, id) != [] { RunOne(t', Written(rs, id).value); }
    }
  }

  lemma CommittingAppliesWrites(rs: seq<Request>, ids: seq<nat>)
    ensures AppliesWrites(Step(rs), rs, ids)
  {
  }

  // --- Which batches are followed ---------------------------------------------------------------------------

  /** Under every schedule a peer that starts with the same tree ends with the tree of the batch. */
  ghost predicate Followed(rs: seq<Request>) {
    forall t, es, s :: WellFormed(t) && Execution(rs, Start(t, rs), es, s) && Finished(rs, s) ==>
      Run(t, Wire(s.outs, s.announced)) == s.tree
  }

  /** What the two queries of a clashing pair broadcast when the put commits last. */
  lemma PairBroadcasts(t: Tree, rs: seq<Request>, outs: map<nat, seq<Update>>,
                       pre: seq<nat>, i: nat, j: nat, post: seq<nat>)
    requires Written(rs, i).Some? && Written(rs, j).Some? && Written(rs, j).value.PutKey?
    requires Meets(Written(rs, j).value, Written(rs, i).value)
    requires forall k: nat :: k < |pre + [i, j] + post| ==> CommittedAt(t, rs, pre + [i, j] + post, outs, k)
    requires Primed(RunAll(Receive(outs), t, pre), Written(rs, j).value, Written(rs, i).value)
    ensures OutOf(outs, i) == [Written(rs, i).value] && OutOf(outs, j) == [Written(rs, j).value]
  {
    var order, n := pre + [i, j] + post, |pre|;
    assert order[..n] == pre && order[n] == i && order[n + 1] == j;
    assert CommittedAt(t, rs, order, outs, n) && CommittedAt(t, rs, order, outs, n + 1);
    ReceivedIsCommitted(t, rs, order, outs, n);
    NextCommit(t, rs, order, n);
    PutAfterOther(RunAll(Receive(outs), t, pre), Written(rs, j).value, Written(rs, i).value);
  }

  /** A clashing pair has a schedule that parts the peers from the batch. */
  lemma ClashParts(rs: seq<Request>, i: nat, j: nat) returns (t: Tree, es: seq<Event>, s: State)
    requires i != j && Written(rs, i).Some? && Written(rs, j).Some?
    requires Clash(Written(rs, j).value, Written(rs, i).value)
    ensures WellFormed(t) && Execution(rs, Start(t, rs), es, s) && Finished(rs, s)
    ensures Run(t, Wire(s.outs, s.announced)) != s.tree
  {
    var x, u := Written(rs, i).value, Written(rs, j).value;
    var p := Target(u);
    t := Stage(u, x);
    StageIsPrimed(u, x);
    var pre, post := SetApart(rs, i, j, WritersAt(rs, p));
    es, s := Realise(t, rs, pre + [i, j] + post, pre + [j, i] + post);
    var step := Receive(s.outs);
    var t1 := RunAll(step, t, pre);
    ReceivingAppliesWrites(t, rs, s, pre);
    ReceivingAppliesWrites(t, rs, s, post);
    PrimedThrough(step, rs, pre, t, u, x);
    PairBroadcasts(t, rs, s.outs, pre, i, j, post);
    RunOne(t1, x);
    RunOne(t1, u);
    RunOne(Apply(t1, x), u);
    RunOne(Apply(t1, u), x);
    PutAfterOther(t1, u, x);
    OtherAfterPut(t1, u, x);
    RunSpliced(step, t, pre, i, j, post);
    RunSpliced(step, t, pre, j, i, post);
    OthersKeep(step, rs, post, Apply(Apply(t1, x), u), p);
    OthersKeep(step, rs, post, Apply(Apply(t1, u), x), p);
    WireIsReceived(t, s.outs, s.announced);
  }

  /**
   * The peers follow a batch under all schedules if and only if no two of its writes clash, whatever its size
   * and whatever its other queries.
   */
  lemma FollowedExactly(rs: seq<Request>)
    ensures Followed(rs) <==> forall i: nat, j: nat :: i != j ==> !Clashing(rs, i, j)
  {
    if i: nat, j: nat :| i != j && Clashing(rs, i, j) {
      if Clash(Written(rs, j).value, Written(rs, i).value) {
        var t, es, s := ClashParts(rs, i, j);
        assert !Followed(rs);
      } else {
        var t, es, s := ClashParts(rs, j, i);
        assert !Followed(rs);
      }
    } else {
      forall t, es, s | WellFormed(t) && Execution(rs, Start(t, rs), es, s) && Finished(rs, s)
        ensures Run(t, Wire(s.outs, s.announced)) == s.tree
      {
        PeersFollowBatch(t, rs, es, s);
      }
    }
  }

  function PutQuery(key: string, value: string): Request {
    Request(Query(key, "PUT", value, false, ""), Draw(0, None, true))
  }

  function ObjectOf(value: string): KVObject {
    KVObject(0, false, value, [], true)
  }

  lemma TwoPutsWrite(key: string, a: string, b: string)
    ensures var rs := [PutQuery(key, a), PutQuery(key, b)];
            && Written(rs, 0) == Some(PutKey(key, ObjectOf(a))) && Written(rs, 1) == Some(PutKey(key, ObjectOf(b)))
            && Permutes(rs, [0, 1]) && Permutes(rs, [1, 0])
  {
    assert Upper("PUT") == "PUT";
  }

  /**
   * For one key put twice it needs no special tree: wherever the key can be put, the goroutines may commit in one
   * order and broadcast in the other, and every peer is left with the value that was overwritten.
   */
  lemma TwoPutsPart(t: Tree, key: string, a: string, b: string) returns (es: seq<Event>, s: State)
    requires PutOk(t, Components(key))
    ensures var rs := [PutQuery(key, a), PutQuery(key, b)];
            && Execution(rs, Start(t, rs), es, s) && Finished(rs, s)
            && Look(s.tree, Components(key)) == Stored(ObjectOf(b))
            && Look(Run(t, Wire(s.outs, s.announced)), Components(key)) == Stored(ObjectOf(a))
  {
    var rs, ua, ub := [PutQuery(key, a), PutQuery(key, b)], PutKey(key, ObjectOf(a)), PutKey(key, ObjectOf(b));
    TwoPutsWrite(key, a, b);
    assert [] + [0, 1] + [] == [0, 1] && [] + [1, 0] + [] == [1, 0];
    es, s := Realise(t, rs, [0, 1], [1, 0]);
    PairBroadcasts(t, rs, s.outs, [], 0, 1, []);
    RunSpliced(Receive(s.outs), t, [], 0, 1, []);
    RunSpliced(Receive(s.outs), t, [], 1, 0, []);
    WireIsReceived(t, s.outs, s.announced);
    RunOne(t, ua);
    RunOne(t, ub);
    RunOne(Apply(t, ua), ub);
    RunOne(Apply(t, ub), ua);
    PutAfterOther(t, ub, ua);
    PutAfterOther(t, ua, ub);
  }

  // --- Which batches do not depend on the schedule ----------------------------------------------------------

  /** All schedules lead to the same tree. */
  ghost predicate TreeIsFixed(rs: seq<Request>) {
    forall t, es, s, es', s' ::
      WellFormed(t) && Execution(rs, Start(t, rs), es, s) && Finished(rs, s)
      && Execution(rs, Start(t, rs), es', s') && Finished(rs, s')
      ==> s.tree == s'.tree
  }

  /** Every order of commits can happen. */
  lemma RealiseOrder(t: Tree, rs: seq<Request>, order: seq<nat>) returns (es: seq<Event>, s: State)
    requires Permutes(rs, order)
    ensures Execution(rs, Start(t, rs), es, s) && Finished(rs, s)
    ensures s.tree == RunAll(Step(rs), t, order)
  {
    es, s := Realise(t, rs, order, order);
  }

  lemma RunOfSpliced(rs: seq<Request>, t: Tree, pre: seq<nat>, i: nat, j: nat, post: seq<nat>)
      returns (es: seq<Event>, s: State)
    requires Permutes(rs, pre + [i, j] + post) && Written(rs, i).Some? && Written(rs, j).Some?
    ensures Execution(rs, Start(t, rs), es, s) && Finished(rs, s)
    ensures var x, u, t1 := Written(rs, i).value, Written(rs, j).value, RunAll(Step(rs), t, pre);
            s.tree == RunAll(Step(rs), Apply(Apply(t1, x), u), post)
  {
    es, s := RealiseOrder(t, rs, pre + [i, j] + post);
    RunSpliced(Step(rs), t, pre, i, j, post);
  }

  /** Two schedules that differ in the order of two neighbours. */
  lemma Neighbours(rs: seq<Request>, t: Tree, i: nat, j: nat, early: set<nat>)
      returns (pre: seq<nat>, post: seq<nat>, es: seq<Event>, s: State, es': seq<Event>, s': State)
    requires i != j && Written(rs, i).Some? && Written(rs, j).Some?
    ensures Execution(rs, Start(t, rs), es, s) && Finished(rs, s)
    ensures Execution(rs, Start(t, rs), es', s') && Finished(rs, s')
    ensures forall id :: id in pre ==> id in early
    ensures forall id :: id in post ==> id < |rs| && id !in early && id != i && id != j
    ensures early == {} ==> pre == []
    ensures var x, u, t1 := Written(rs, i).value, Written(rs, j).value, RunAll(Step(rs), t, pre);
            && s.tree == RunAll(Step(rs), Apply(Apply(t1, x), u), post)
            && s'.tree == RunAll(Step(rs), Apply(Apply(t1, u), x), post)
  {
    pre, post := SetApart(rs, i, j, early);
    es, s := RunOfSpliced(rs, t, pre, i, j, post);
    es', s' := RunOfSpliced(rs, t, pre, j, i, post);
  }

  lemma ClashShows(rs: seq<Request>, i: nat, j: nat)
    requires i != j && Written(rs, i).Some? && Written(rs, j).Some?
    requires Clash(Written(rs, j).value, Written(rs, i).value)
    ensures !TreeIsFixed(rs)
  {
    var x, u, step := Written(rs, i).value, Written(rs, j).value, Step(rs);
    var p, t := Target(u), Stage(u, x);
    StageIsPrimed(u, x);
    var pre, post, es, s, es', s' := Neighbours(rs, t, i, j, WritersAt(rs, p));
    var t1 := RunAll(step, t, pre);
    CommittingAppliesWrites(rs, pre);
    CommittingAppliesWrites(rs, post);
    PrimedThrough(step, rs, pre, t, u, x);
    PutAfterOther(t1, u, x);
    OtherAfterPut(t1, u, x);
    OthersKeep(step, rs, post, Apply(Apply(t1, x), u), p);
    OthersKeep(step, rs, post, Apply(Apply(t1, u), x), p);
    assert s.tree != s'.tree;
  }

  /** Where nothing deletes the path itself, whether it is an object or a bucket stays so. */
  lemma {:induction false} KindStays(rs: seq<Request>, ids: seq<nat>, t: Tree, p: Path)
    requires forall id :: id in ids && WritesAt(rs, id, p) ==> Written(rs, id).value.PutKey?
    ensures Look(t, p).Stored? ==> Look(RunAll(Step(rs), t, ids), p).Stored?
    ensures Look(t, p).Directory? ==> Look(RunAll(Step(rs), t, ids), p).Directory?
    decreases |ids|
  {
    if ids != [] {
      assert ids[0] in ids;
      var w := Written(rs, ids[0]);
      if w.Some? {
        if Look(t, p).Directory? { DirectoryStays(t, w.value, p); }
        if Look(t, p).Stored? && !Look(Apply(t, w.value), p).Stored? { OnlyDeletionUnstores(t, w.value, p); }
      }
      KindStays(rs, ids[1..], Step(rs)(t, ids[0]), p);
    }
  }

  /** Of two puts on nested paths the first one wins. */
  lemma NestedPutsFromEmpty(u: Update, w: Update)
    requires u.PutKey? && w.PutKey? && Possible(u) && Possible(w) && Target(u) < Target(w)
    ensures Look(Apply(Apply(EMPTY, u), w), Target(u)).Stored?
    ensures Look(Apply(Apply(EMPTY, w), u), Target(u)).Directory?
  {
    PutIntoEmptyFires(u);
    PutIntoEmptyFires(w);
    LookApply(EMPTY, u, Target(u));
    LookApply(EMPTY, w, Target(u));
    OtherWriteKeeps(Apply(EMPTY, u), w, Target(u));
    DirectoryStays(Apply(EMPTY, w), u, Target(u));
  }

  lemma NestedPutsShow(rs: seq<Request>, i: nat, j: nat)
    requires i != j && Written(rs, i).Some? && Written(rs, j).Some?
    requires var u, w := Written(rs, i).value, Written(rs, j).value;
             u.PutKey? && w.PutKey? && Possible(u) && Possible(w) && Target(u) < Target(w)
    requires forall id: nat :: id != i ==> !Clashing(rs, i, id)
    ensures !TreeIsFixed(rs)
  {
    var u, w, p := Written(rs, i).value, Written(rs, j).value, Target(Written(rs, i).value);
    EmptyIsWellFormed();
    NestedPutsFromEmpty(u, w);
    var pre, post, es, s, es', s' := Neighbours(rs, EMPTY, i, j, {});
    forall id | id in post && WritesAt(rs, id, p) ensures Written(rs, id).value.PutKey? {
      assert !Clashing(rs, i, id);
    }
    KindStays(rs, post, Apply(Apply(EMPTY, u), w), p);
    KindStays(rs, post, Apply(Apply(EMPTY, w), u), p);
    assert s.tree != s'.tree;
  }

  lemma ClashingShows(rs: seq<Request>, i: nat, j: nat)
    requires i != j && Clashing(rs, i, j)
    ensures !TreeIsFixed(rs)
  {
    if Clash(Written(rs, j).value, Written(rs, i).value) { ClashShows(rs, i, j); } else { ClashShows(rs, j, i); }
  }

  lemma ConflictShows(rs: seq<Request>, i: nat, j: nat)
    requires i != j && WritesConflict(rs, i, j)
    ensures !TreeIsFixed(rs)
  {
    if k: nat, l: nat :| k != l && Clashing(rs, k, l) {
      ClashingShows(rs, k, l);
    } else {
      assert !Clashing(rs, i, j);
      var u, w := Written(rs, i).value, Written(rs, j).value;
      NestedUnlessClashing(u, w);
      if Target(u) < Target(w) { NestedPutsShow(rs, i, j); } else { NestedPutsShow(rs, j, i); }
    }
  }

  /** A batch leaves the same tree under all schedules if and only if no two of its writes conflict. */
  lemma TreeIsFixedExactly(rs: seq<Request>)
    ensures TreeIsFixed(rs) <==> forall i: nat, j: nat :: i != j ==> !WritesConflict(rs, i, j)
  {
    if i: nat, j: nat :| i != j && WritesConflict(rs, i, j) {
      ConflictShows(rs, i, j);
    } else {
      forall t, es, s, es', s' |
          WellFormed(t) && Execution(rs, Start(t, rs), es, s) && Finished(rs, s)
          && Execution(rs, Start(t, rs), es', s') && Finished(rs, s')
        ensures s.tree == s'.tree
      {
        SameConflictOrderSameTree(t, rs, es, s, es', s');
      }
    }
  }
}
