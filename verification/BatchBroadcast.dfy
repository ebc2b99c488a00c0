/**
 * What the other nodes make of a batch. The goroutines commit in one order and may broadcast in another, so a
 * peer that applies the broadcasts in the order they were sent need not follow the commits.
 */
module BatchBroadcast {
  import opened Types
  import opened Paths
  import opened Tree
  import opened Updates
  import opened Convergence
  import opened Traces
  import opened Counting
  import opened Batch

  function OutOf(outs: map<nat, seq<Update>>, id: nat): seq<Update> {
    if id in outs then outs[id] else []
  }

  /** The broadcasts of these queries, one after the other. */
  function Wire(outs: map<nat, seq<Update>>, ids: seq<nat>): seq<Update> {
    if ids == [] then [] else OutOf(outs, ids[0]) + Wire(outs, ids[1..])
  }

  /** Applying one query's broadcasts, as a step of a run over queries. */
  ghost function Receive(outs: map<nat, seq<Update>>): (Tree, nat) -> Tree {
    (t: Tree, id: nat) => Run(t, OutOf(outs, id))
  }

  lemma {:induction false} WireIsReceived(t: Tree, outs: map<nat, seq<Update>>, ids: seq<nat>)
    ensures Run(t, Wire(outs, ids)) == RunAll(Receive(outs), t, ids)
    decreases |ids|
  {
    if ids != [] {
      RunAppend(t, OutOf(outs, ids[0]), Wire(outs, ids[1..]));
      WireIsReceived(Run(t, OutOf(outs, ids[0])), outs, ids[1..]);
    }
  }

  lemma {:induction false} WireAppend(outs: map<nat, seq<Update>>, ids: seq<nat>, id: nat)
    ensures Wire(outs, ids + [id]) == Wire(outs, ids) + OutOf(outs, id)
  {
    if ids == [] {
      assert ([] + [id])[0] == id && ([] + [id])[1..] == [];
    } else {
      assert (ids + [id])[0] == ids[0] && (ids + [id])[1..] == ids[1..] + [id];
      WireAppend(outs, ids[1..], id);
      var a, b, c := OutOf(outs, ids[0]), Wire(outs, ids[1..]), OutOf(outs, id);
      assert a + (b + c) == (a + b) + c;
    }
  }

  /** Queries that are not in the list may change what they send. */
  lemma {:induction false} ReceiveOnly(t: Tree, outs: map<nat, seq<Update>>, outs': map<nat, seq<Update>>,
                                       ids: seq<nat>)
    requires forall id :: id in ids ==> OutOf(outs, id) == OutOf(outs', id)
    ensures RunAll(Receive(outs), t, ids) == RunAll(Receive(outs'), t, ids)
    decreases |ids|
  {
    if ids != [] {
      assert ids[0] in ids;
      ReceiveOnly(Run(t, OutOf(outs, ids[0])), outs, outs', ids[1..]);
    }
  }

  lemma {:induction false} WireOnly(outs: map<nat, seq<Update>>, outs': map<nat, seq<Update>>, ids: seq<nat>)
    requires forall id :: id in ids ==> OutOf(outs, id) == OutOf(outs', id)
    ensures Wire(outs, ids) == Wire(outs', ids)
  {
    if ids != [] {
      assert ids[0] in ids;
      WireOnly(outs, outs', ids[1..]);
    }
  }

  /** A query broadcasts its own write or nothing. */
  predicate OwnOut(r: Request, out: seq<Update>) {
    out == [] || (Write(r.query, r.draw).Some? && out == [Write(r.query, r.draw).value])
  }

  /** Which queries have been announced. */
  ghost predicate AnnouncedInv(rs: seq<Request>, s: State)
    requires |s.jobs| == |rs|
  {
    && Distinct(s.announced)
    && (forall id: nat :: id in s.announced <==>
          id < |rs| && VerbOf(rs[id].query) != Invalid && (s.jobs[id].Announced? || s.jobs[id].Sent?))
    && (forall id: nat :: id < |rs| && s.jobs[id].Committed? ==> id in s.outs && s.jobs[id].out == s.outs[id])
  }

  /** What the committed queries broadcast, in the order of the commits, makes the tree. */
  ghost predicate OutsInv(t: Tree, rs: seq<Request>, s: State) {
    && (forall id: nat :: id in s.outs <==> id in s.order)
    && (forall id :: id in s.outs ==> id < |rs| && OwnOut(rs[id], s.outs[id]))
    && s.tree == RunAll(Receive(s.outs), t, s.order)
  }

  ghost predicate CommittedAt(t: Tree, rs: seq<Request>, order: seq<nat>, outs: map<nat, seq<Update>>, k: nat)
    requires k < |order|
  {
    && order[k] < |rs|
    && OutOf(outs, order[k]) == Out(RunAll(Step(rs), t, order[..k]), rs[order[k]].query, rs[order[k]].draw)
  }

  /** What each committed query broadcasts is what its write came to at the time of its commit. */
  ghost predicate CommitsInv(t: Tree, rs: seq<Request>, s: State) {
    forall k: nat :: k < |s.order| ==> CommittedAt(t, rs, s.order, s.outs, k)
  }

  ghost predicate Announcing(t: Tree, rs: seq<Request>, s: State) {
    Inv(t, rs, s) && AnnouncedInv(rs, s) && OutsInv(t, rs, s) && CommitsInv(t, rs, s)
  }

  /** `es` leads from the start to `s`. */
  ghost predicate Reached(t: Tree, rs: seq<Request>, es: seq<Event>, s: State) {
    Announcing(t, rs, s) && Execution(rs, Start(t, rs), es, s)
  }

  lemma OutsInvCommit(t: Tree, rs: seq<Request>, s: State, id: nat)
    requires |s.jobs| == |rs| && OutsInv(t, rs, s) && Due(rs, s, Commit(id)) && id !in s.order
    ensures OutsInv(t, rs, Next(rs, s, Commit(id)))
  {
    var s' := Next(rs, s, Commit(id));
    assert s'.order == s.order + [id];
    assert forall i :: i in s.order ==> i != id && OutOf(s'.outs, i) == OutOf(s.outs, i);
    ReceiveOnly(t, s.outs, s'.outs, s.order);
    RunAllAppend(Receive(s'.outs), t, s.order, [id]);
    var step := Receive(s'.outs);
    assert RunAll(step, s.tree, [id]) == RunAll(step, step(s.tree, id), [id][1..]);
    assert [id][1..] == [];
    var out := Out(s.tree, rs[id].query, rs[id].draw);
    assert OutOf(s'.outs, id) == out;
    assert step(s.tree, id) == Run(s.tree, out);
  }

  lemma CommitsInvCommit(t: Tree, rs: seq<Request>, s: State, id: nat)
    requires |s.jobs| == |rs| && CommitsInv(t, rs, s) && Due(rs, s, Commit(id)) && id !in s.order
    requires s.tree == RunAll(Step(rs), t, s.order)
    ensures CommitsInv(t, rs, Next(rs, s, Commit(id)))
  {
    var s' := Next(rs, s, Commit(id));
    assert s'.order == s.order + [id];
    forall k: nat | k < |s'.order| ensures CommittedAt(t, rs, s'.order, s'.outs, k) {
      if k < |s.order| {
        assert s'.order[..k] == s.order[..k] && s.order[k] != id;
        assert CommittedAt(t, rs, s.order, s.outs, k);
      } else {
        assert s'.order[..k] == s.order;
      }
    }
  }

  lemma AnnouncedInvStep(rs: seq<Request>, s: State, e: Event)
    requires |s.jobs| == |rs| && AnnouncedInv(rs, s) && Due(rs, s, e)
    requires e.Spawn? ==> s.jobs[s.next] == Unstarted
    requires forall id :: 0 <= id < |rs| && VerbOf(rs[id].query) == Invalid ==>
               s.jobs[id].Unstarted? || s.jobs[id].Sent?
    ensures AnnouncedInv(rs, Next(rs, s, e))
  {
    if e.Announce? {
      assert e.id !in s.announced;
      assert Next(rs, s, e).announced == s.announced + [e.id];
    }
  }

  lemma AnnouncingStep(t: Tree, rs: seq<Request>, s: State, e: Event)
    requires Announcing(t, rs, s) && Due(rs, s, e)
    ensures Announcing(t, rs, Next(rs, s, e))
  {
    InvStep(t, rs, s, e);
    AnnouncedInvStep(rs, s, e);
    if e.Commit? {
      JobsInvCommit(rs, s, e.id);
      OutsInvCommit(t, rs, s, e.id);
      CommitsInvCommit(t, rs, s, e.id);
    }
  }

  lemma StartAnnouncing(t: Tree, rs: seq<Request>)
    ensures Announcing(t, rs, Start(t, rs))
  {
    StartInv(t, rs);
  }

  lemma {:induction false} AnnouncingAlways(t: Tree, rs: seq<Request>, s: State, es: seq<Event>, s': State)
    requires Announcing(t, rs, s) && Execution(rs, s, es, s')
    ensures Announcing(t, rs, s')
    decreases |es|
  {
    if es != [] {
      AnnouncingStep(t, rs, s, es[0]);
      AnnouncingAlways(t, rs, Next(rs, s, es[0]), es[1..], s');
    }
  }

  lemma Advance(t: Tree, rs: seq<Request>, es: seq<Event>, s: State, e: Event)
    requires Reached(t, rs, es, s) && Due(rs, s, e)
    ensures Reached(t, rs, es + [e], Next(rs, s, e))
    ensures Left(Next(rs, s, e).jobs) < Left(s.jobs)
    ensures e.Commit? ==> VerbOf(rs[e.id].query) != Invalid
  {
    SendsNeverBlock(t, rs, es, s, e);
    EveryStepProgresses(t, rs, s, e);
    AnnouncingStep(t, rs, s, e);
    OneMoreEvent(rs, Start(t, rs), es, s, e);
  }

  // --- When the peers follow --------------------------------------------------------------------------------

  /** A put that can go through, and a put on its path or a key deletion at or above it. */
  predicate Meets(u: Update, w: Update) {
    && u.PutKey? && Possible(u)
    && ((w.PutKey? && Target(w) == Target(u)) || (w.DeleteKey? && Target(w) <= Target(u)))
  }

  predicate Clash(u: Update, w: Update) {
    u != w && Meets(u, w)
  }

  /** In terms of path strings: the same path, or for a deletion a slash-prefix of it. */
  lemma ClashOnStrings(u: Update, w: Update)
    requires u.PutKey? && Possible(u) && (w.PutKey? || w.DeleteKey?)
    ensures Clash(u, w) <==> u != w && (if w.PutKey? then w.key == u.key else SlashPrefix(w.key, u.key))
  {
    PrefixIsSlashPrefix(w.key, u.key);
    if Target(w) == Target(u) { ComponentsInjective(w.key, u.key); }
  }

  ghost predicate Clashing(rs: seq<Request>, i: nat, j: nat) {
    var u, w := Written(rs, i), Written(rs, j);
    u.Some? && w.Some? && (Clash(u.value, w.value) || Clash(w.value, u.value))
  }

  /** The first update of a broadcast; a query broadcasts one at most. */
  ghost predicate OutsConflict(outs: map<nat, seq<Update>>, i: nat, j: nat) {
    OutOf(outs, i) != [] && OutOf(outs, j) != [] && Conflict(OutOf(outs, i)[0], OutOf(outs, j)[0])
  }

  ghost function BroadcastConflicts(outs: map<nat, seq<Update>>): (nat, nat) -> bool {
    (i: nat, j: nat) => OutsConflict(outs, i, j)
  }

  lemma RunOne(t: Tree, u: Update)
    ensures Run(t, [u]) == Apply(t, u)
  {
    assert [u][1..] == [];
    assert Run(Apply(t, u), []) == Apply(t, u);
  }

  lemma ReceiptsCommute(rs: seq<Request>, outs: map<nat, seq<Update>>)
    requires forall id :: id in outs ==> id < |rs| && OwnOut(rs[id], outs[id])
    ensures Dependence(BroadcastConflicts(outs)) && Commutes(Receive(outs), BroadcastConflicts(outs))
  {
    forall t, i: nat, j: nat | !BroadcastConflicts(outs)(i, j)
      ensures Receive(outs)(Receive(outs)(t, i), j) == Receive(outs)(Receive(outs)(t, j), i)
    {
      if OutOf(outs, i) != [] && OutOf(outs, j) != [] {
        var u, w := OutOf(outs, i)[0], OutOf(outs, j)[0];
        UpdatesCommute(t, u, w);
        assert forall s :: Run(s, [u]) == Apply(s, u) by { forall s { RunOne(s, u); } }
        assert forall s :: Run(s, [w]) == Apply(s, w) by { forall s { RunOne(s, w); } }
      }
    }
  }

  /** Of the writes of a batch only the deletion of its very path takes a stored object away. */
  lemma OnlyDeletionUnstores(t: Tree, w: Update, p: Path)
    requires w.PutKey? || w.DeleteKey?
    requires Look(t, p).Stored? && !Look(Apply(t, w), p).Stored?
    ensures w.DeleteKey? && Target(w) == p
  {
    var q := Target(w);
    LookApply(t, w, p);
    if w.PutKey? {
      if p <= q { PrefixOrEqual(p, q); }
    } else {
      PrefixOrEqual(q, p);
      if q < p { AboveIsDirectory(t, q, p); }
    }
  }

  /** None of them takes a bucket away. */
  lemma DirectoryStays(t: Tree, w: Update, p: Path)
    requires w.PutKey? || w.DeleteKey?
    requires Look(t, p).Directory?
    ensures Look(Apply(t, w), p).Directory?
  {
    var q := Target(w);
    LookApply(t, w, p);
    if q <= p {
      PrefixOrEqual(q, p);
      if q < p { AboveIsDirectory(t, q, p); }
    }
  }

  /** The tree after the first `k` commits. */
  ghost function AfterCommits(t: Tree, rs: seq<Request>, order: seq<nat>, k: nat): Tree
    requires k <= |order|
  {
    RunAll(Step(rs), t, order[..k])
  }

  lemma NextCommit(t: Tree, rs: seq<Request>, order: seq<nat>, k: nat)
    requires k < |order| && order[k] < |rs|
    ensures AfterCommits(t, rs, order, k + 1)
            == TreeAfter(AfterCommits(t, rs, order, k), rs[order[k]].query, rs[order[k]].draw)
  {
    assert order[..k + 1] == order[..k] + [order[k]];
    RunAllLast(Step(rs), t, order[..k], order[k]);
  }

  /** An object that is stored after some commits and not after some more was deleted in between. */
  lemma {:induction false} DeletedBetween(t: Tree, rs: seq<Request>, order: seq<nat>, a: nat, b: nat, p: Path)
      returns (c: nat)
    requires a <= b <= |order| && forall k :: 0 <= k < |order| ==> order[k] < |rs|
    requires Look(AfterCommits(t, rs, order, a), p).Stored? && !Look(AfterCommits(t, rs, order, b), p).Stored?
    ensures a <= c < b
    ensures var w := Written(rs, order[c]);
            w.Some? && w.value.DeleteKey? && Target(w.value) == p
    decreases b
  {
    if Look(AfterCommits(t, rs, order, b - 1), p).Stored? {
      c := b - 1;
      NextCommit(t, rs, order, c);
      OnlyDeletionUnstores(AfterCommits(t, rs, order, c), Written(rs, order[c]).value, p);
    } else {
      c := DeletedBetween(t, rs, order, a, b - 1, p);
    }
  }

  lemma {:induction false} DirectoryRemains(t: Tree, rs: seq<Request>, order: seq<nat>, a: nat, b: nat, p: Path)
    requires a <= b <= |order| && forall k :: 0 <= k < |order| ==> order[k] < |rs|
    requires Look(AfterCommits(t, rs, order, a), p).Directory?
    ensures Look(AfterCommits(t, rs, order, b), p).Directory?
    decreases b
  {
    if a < b {
      DirectoryRemains(t, rs, order, a, b - 1, p);
      NextCommit(t, rs, order, b - 1);
      var w := Written(rs, order[b - 1]);
      if w.Some? { DirectoryStays(AfterCommits(t, rs, order, b - 1), w.value, p); }
    }
  }

  /** A broadcast put went through when it was committed. */
  lemma BroadcastPutFired(t: Tree, rs: seq<Request>, s: State, k: nat)
    requires Announcing(t, rs, s) && k < |s.order|
    requires OutOf(s.outs, s.order[k]) != [] && OutOf(s.outs, s.order[k])[0].PutKey?
    ensures Fires(AfterCommits(t, rs, s.order, k), OutOf(s.outs, s.order[k])[0])
    ensures Possible(OutOf(s.outs, s.order[k])[0])
    ensures Written(rs, s.order[k]) == Some(OutOf(s.outs, s.order[k])[0])
    ensures AfterCommits(t, rs, s.order, k + 1)
            == Apply(AfterCommits(t, rs, s.order, k), OutOf(s.outs, s.order[k])[0])
  {
    assert CommittedAt(t, rs, s.order, s.outs, k);
    NextCommit(t, rs, s.order, k);
  }

  /** Positions `a` and `b` of the order of commits hold puts on nested paths, both broadcast. */
  ghost predicate Nested(s: State, a: nat, b: nat) {
    && a < |s.order| && b < |s.order|
    && OutOf(s.outs, s.order[a]) != [] && OutOf(s.outs, s.order[b]) != []
    && var u, w := OutOf(s.outs, s.order[a])[0], OutOf(s.outs, s.order[b])[0];
       u.PutKey? && w.PutKey? && Target(u) < Target(w)
  }

  lemma CommitsInRange(t: Tree, rs: seq<Request>, s: State)
    requires Announcing(t, rs, s)
    ensures forall k :: 0 <= k < |s.order| ==> s.order[k] < |rs|
  {
    forall k: nat | k < |s.order| ensures s.order[k] < |rs| { assert CommittedAt(t, rs, s.order, s.outs, k); }
  }

  lemma UpperPutFirst(t: Tree, rs: seq<Request>, s: State, a: nat, b: nat)
    requires Announcing(t, rs, s) && Nested(s, a, b)
    ensures a < b
  {
    var w, p := OutOf(s.outs, s.order[b])[0], Target(OutOf(s.outs, s.order[a])[0]);
    BroadcastPutFired(t, rs, s, a);
    BroadcastPutFired(t, rs, s, b);
    CommitsInRange(t, rs, s);
    if b < a {
      LookApply(AfterCommits(t, rs, s.order, b), w, p);
      DirectoryRemains(t, rs, s.order, b + 1, a, p);
    }
  }

  lemma DeletedBetweenNested(t: Tree, rs: seq<Request>, s: State, a: nat, b: nat) returns (c: nat)
    requires Announcing(t, rs, s) && Nested(s, a, b)
    ensures a < c < b
    ensures var x := Written(rs, s.order[c]);
            x.Some? && x.value.DeleteKey? && Target(x.value) == Target(OutOf(s.outs, s.order[a])[0])
  {
    var u, p := OutOf(s.outs, s.order[a])[0], Target(OutOf(s.outs, s.order[a])[0]);
    UpperPutFirst(t, rs, s, a, b);
    BroadcastPutFired(t, rs, s, a);
    BroadcastPutFired(t, rs, s, b);
    LookApply(AfterCommits(t, rs, s.order, a), u, p);
    CommitsInRange(t, rs, s);
    c := DeletedBetween(t, rs, s.order, a + 1, b, p);
  }

  lemma DeletionClashes(rs: seq<Request>, i: nat, k: nat, j: nat)
    requires var u, x, w := Written(rs, i), Written(rs, k), Written(rs, j);
             && u.Some? && x.Some? && w.Some?
             && u.value.PutKey? && Possible(u.value) && w.value.PutKey? && Possible(w.value) && x.value.DeleteKey?
             && Target(x.value) == Target(u.value) < Target(w.value)
    ensures Clashing(rs, i, k) && Clashing(rs, k, j)
  {
  }

  /**
   * If two puts on nested paths were both broadcast, the upper one was committed first, and its path was
   * deleted before the lower one.
   */
  lemma NestedPuts(t: Tree, rs: seq<Request>, s: State, a: nat, b: nat) returns (c: nat)
    requires Announcing(t, rs, s) && Nested(s, a, b)
    ensures a < c < b && Clashing(rs, s.order[a], s.order[c]) && Clashing(rs, s.order[c], s.order[b])
  {
    c := DeletedBetweenNested(t, rs, s, a, b);
    BroadcastPutFired(t, rs, s, a);
    BroadcastPutFired(t, rs, s, b);
    DeletionClashes(rs, s.order[a], s.order[c], s.order[b]);
  }

  /** The same queries, those that clash in the same order. */
  ghost predicate ClashesInOrder(rs: seq<Request>, order: seq<nat>, announced: seq<nat>) {
    && (forall id :: id in order <==> id in announced)
    && (forall i: nat, j: nat :: i != j && Clashing(rs, i, j) ==> Restrict(order, i, j) == Restrict(announced, i, j))
  }

  lemma NestedInOrder(t: Tree, rs: seq<Request>, s: State, a: nat, b: nat)
    requires Announcing(t, rs, s) && Nested(s, a, b)
    requires ClashesInOrder(rs, s.order, s.announced)
    ensures Restrict(s.order, s.order[a], s.order[b]) == Restrict(s.announced, s.order[a], s.order[b])
    ensures Restrict(s.order, s.order[b], s.order[a]) == Restrict(s.announced, s.order[b], s.order[a])
  {
    CommitsInRange(t, rs, s);
    var c := NestedPuts(t, rs, s, a, b);
    var i, k, j := s.order[a], s.order[c], s.order[b];
    assert i in s.announced && k in s.announced && j in s.announced;
    var a', c' := SameOrder(s.order, s.announced, i, k, a, c);
    var c'', b' := SameOrder(s.order, s.announced, k, j, c, b);
    assert c' == c'';
    RestrictOfDistinct(s.order, i, j, a, b);
    RestrictOfDistinct(s.announced, i, j, a', b');
  }

  /** Of the writes of a batch, puts on nested paths are the only ones that conflict without clashing. */
  lemma NestedUnlessClashing(u: Update, w: Update)
    requires (u.PutKey? && Possible(u)) || u.DeleteKey?
    requires (w.PutKey? && Possible(w)) || w.DeleteKey?
    requires Conflict(u, w) && !Clash(u, w) && !Clash(w, u)
    ensures u.PutKey? && w.PutKey? && (Target(u) < Target(w) || Target(w) < Target(u))
  {
    if Target(u) <= Target(w) { PrefixOrEqual(Target(u), Target(w)); } else { PrefixOrEqual(Target(w), Target(u)); }
  }

  lemma BroadcastIsWrite(t: Tree, rs: seq<Request>, s: State, id: nat) returns (k: nat)
    requires Announcing(t, rs, s) && OutOf(s.outs, id) != []
    ensures Written(rs, id) == Some(OutOf(s.outs, id)[0])
    ensures k < |s.order| && s.order[k] == id
    ensures var u := OutOf(s.outs, id)[0]; (u.PutKey? && Possible(u)) || u.DeleteKey?
  {
    assert id in s.order && OwnOut(rs[id], s.outs[id]);
    k :| k < |s.order| && s.order[k] == id;
    if OutOf(s.outs, id)[0].PutKey? { BroadcastPutFired(t, rs, s, k); }
  }

  lemma ConflictingBroadcastsInOrder(t: Tree, rs: seq<Request>, s: State, i: nat, j: nat)
    requires Announcing(t, rs, s) && i != j && OutsConflict(s.outs, i, j)
    requires ClashesInOrder(rs, s.order, s.announced)
    ensures Restrict(s.order, i, j) == Restrict(s.announced, i, j)
  {
    var a := BroadcastIsWrite(t, rs, s, i);
    var b := BroadcastIsWrite(t, rs, s, j);
    var u, w := OutOf(s.outs, i)[0], OutOf(s.outs, j)[0];
    if !Clashing(rs, i, j) {
      NestedUnlessClashing(u, w);
      if Target(u) < Target(w) { NestedInOrder(t, rs, s, a, b); } else { NestedInOrder(t, rs, s, b, a); }
    }
  }

  /**
   * A peer that starts with the same tree and applies the batch's broadcasts in the order they were sent ends
   * with the tree of the batch, if clashing queries were broadcast in the order they were committed.
   */
  lemma PeersFollowBatch(t: Tree, rs: seq<Request>, es: seq<Event>, s: State)
    requires Execution(rs, Start(t, rs), es, s) && Finished(rs, s)
    requires forall i: nat, j: nat :: i != j && Clashing(rs, i, j) ==>
               Restrict(s.order, i, j) == Restrict(s.announced, i, j)
    ensures Run(t, Wire(s.outs, s.announced)) == s.tree
  {
    StartAnnouncing(t, rs);
    AnnouncingAlways(t, rs, Start(t, rs), es, s);
    FinishedIsStuck(t, rs, s);
    DistinctSameElements(s.order, s.announced);
    ReceiptsCommute(rs, s.outs);
    forall i: nat, j: nat | i != j && OutsConflict(s.outs, i, j)
      ensures Restrict(s.order, i, j) == Restrict(s.announced, i, j)
    {
      ConflictingBroadcastsInOrder(t, rs, s, i, j);
    }
    ReorderedRunsAgree(Receive(s.outs), BroadcastConflicts(s.outs), t, s.order, s.announced);
    WireIsReceived(t, s.outs, s.announced);
  }
}
