/** Which orders the goroutines of a batch can take: any order of commits with any order of broadcasts. */
module Schedules {
  import opened Tree
  import opened Counting
  import opened Batch
  import opened BatchBroadcast

  /** All queries with a known verb, each once. */
  ghost predicate Permutes(rs: seq<Request>, ids: seq<nat>) {
    Distinct(ids) && forall id: nat :: id in ids <==> id < |rs| && VerbOf(rs[id].query) != Invalid
  }

  /** Queries are started one after the other, and none goes on. */
  lemma {:induction false} SpawnAll(t: Tree, rs: seq<Request>, n: nat) returns (es: seq<Event>, s: State)
    requires n <= |rs|
    ensures Reached(t, rs, es, s) && s.next == n && s.order == [] && s.announced == []
  {
    if n == 0 {
      es, s := [], Start(t, rs);
      StartAnnouncing(t, rs);
    } else {
      es, s := SpawnAll(t, rs, n - 1);
      Advance(t, rs, es, s, Spawn);
      es, s := es + [Spawn], Next(rs, s, Spawn);
    }
  }

  lemma CommitIsDue(rs: seq<Request>, s: State, id: nat)
    requires JobsInv(rs, s) && s.next == |rs|
    requires id < |rs| && VerbOf(rs[id].query) != Invalid && id !in s.order
    ensures Due(rs, s, Commit(id))
  {
  }

  lemma AnnounceIsDue(rs: seq<Request>, s: State, id: nat)
    requires JobsInv(rs, s) && AnnouncedInv(rs, s)
    requires id < |rs| && VerbOf(rs[id].query) != Invalid && id in s.order && id !in s.announced
    ensures Due(rs, s, Announce(id))
  {
  }

  lemma HeadToFront(done: seq<nat>, ids: seq<nat>)
    requires ids != []
    ensures (done + [ids[0]]) + ids[1..] == done + ids
  {
  }

  /** These queries have yet to commit. */
  ghost predicate CanCommit(rs: seq<Request>, order: seq<nat>, ids: seq<nat>) {
    && Distinct(ids)
    && forall k :: 0 <= k < |ids| ==> ids[k] < |rs| && VerbOf(rs[ids[k]].query) != Invalid && ids[k] !in order
  }

  lemma CommitRest(rs: seq<Request>, order: seq<nat>, ids: seq<nat>)
    requires CanCommit(rs, order, ids) && ids != []
    ensures CanCommit(rs, order + [ids[0]], ids[1..])
  {
    var rest := ids[1..];
    assert forall k :: 0 <= k < |rest| ==> rest[k] == ids[k + 1];
  }

  /** These queries have committed and have yet to broadcast. */
  ghost predicate CanAnnounce(rs: seq<Request>, order: seq<nat>, announced: seq<nat>, ids: seq<nat>) {
    CanCommit(rs, announced, ids) && forall k :: 0 <= k < |ids| ==> ids[k] in order
  }

  lemma AnnounceRest(rs: seq<Request>, order: seq<nat>, announced: seq<nat>, ids: seq<nat>)
    requires CanAnnounce(rs, order, announced, ids) && ids != []
    ensures CanAnnounce(rs, order, announced + [ids[0]], ids[1..])
  {
    CommitRest(rs, announced, ids);
  }

  lemma CommitOne(t: Tree, rs: seq<Request>, es: seq<Event>, s: State, id: nat)
      returns (es': seq<Event>, s': State)
    requires Reached(t, rs, es, s) && s.next == |rs|
    requires id < |rs| && VerbOf(rs[id].query) != Invalid && id !in s.order
    ensures Reached(t, rs, es', s') && s'.next == |rs| && s'.announced == s.announced
    ensures s'.order == s.order + [id]
  {
    CommitIsDue(rs, s, id);
    Advance(t, rs, es, s, Commit(id));
    es', s' := es + [Commit(id)], Next(rs, s, Commit(id));
  }

  /** Once all are started queries commit in the order of a list. */
  lemma {:induction false} CommitAll(t: Tree, rs: seq<Request>, es: seq<Event>, s: State, ids: seq<nat>)
      returns (es': seq<Event>, s': State)
    requires Reached(t, rs, es, s) && s.next == |rs| && CanCommit(rs, s.order, ids)
    ensures Reached(t, rs, es', s') && s'.next == |rs| && s'.announced == s.announced
    ensures s'.order == s.order + ids
    decreases |ids|
  {
    if ids == [] {
      es', s' := es, s;
    } else {
      CommitRest(rs, s.order, ids);
      var es1, s1 := CommitOne(t, rs, es, s, ids[0]);
      es', s' := CommitAll(t, rs, es1, s1, ids[1..]);
      HeadToFront(s.order, ids);
    }
  }

  lemma AnnounceOne(t: Tree, rs: seq<Request>, es: seq<Event>, s: State, id: nat)
      returns (es': seq<Event>, s': State)
    requires Reached(t, rs, es, s)
    requires id < |rs| && VerbOf(rs[id].query) != Invalid && id in s.order && id !in s.announced
    ensures Reached(t, rs, es', s') && s'.next == s.next && s'.order == s.order
    ensures s'.announced == s.announced + [id]
  {
    AnnounceIsDue(rs, s, id);
    Advance(t, rs, es, s, Announce(id));
    es', s' := es + [Announce(id)], Next(rs, s, Announce(id));
  }

  /** Queries that have committed broadcast in the order of a list. */
  lemma {:induction false} AnnounceAll(t: Tree, rs: seq<Request>, es: seq<Event>, s: State, ids: seq<nat>)
      returns (es': seq<Event>, s': State)
    requires Reached(t, rs, es, s) && CanAnnounce(rs, s.order, s.announced, ids)
    ensures Reached(t, rs, es', s') && s'.next == s.next && s'.order == s.order
    ensures s'.announced == s.announced + ids
    decreases |ids|
  {
    if ids == [] {
      es', s' := es, s;
    } else {
      AnnounceRest(rs, s.order, s.announced, ids);
      var es1, s1 := AnnounceOne(t, rs, es, s, ids[0]);
      es', s' := AnnounceAll(t, rs, es1, s1, ids[1..]);
      HeadToFront(s.announced, ids);
    }
  }

  /** With everything broadcast only replies are left to send. */
  lemma {:induction false} SendRest(t: Tree, rs: seq<Request>, es: seq<Event>, s: State)
      returns (es': seq<Event>, s': State)
    requires Reached(t, rs, es, s) && s.next == |rs| && Permutes(rs, s.announced)
    ensures Reached(t, rs, es', s') && Finished(rs, s')
    ensures s'.order == s.order && s'.announced == s.announced
    decreases Left(s.jobs)
  {
    if Finished(rs, s) {
      es', s' := es, s;
    } else {
      var e := NotFinishedMoves(t, rs, s);
      assert !e.Spawn? && (e.id in s.announced <==> VerbOf(rs[e.id].query) != Invalid);
      assert e.Send?;
      Advance(t, rs, es, s, e);
      es', s' := SendRest(t, rs, es + [e], Next(rs, s, e));
    }
  }

  /** Every order of commits goes with every order of broadcasts. */
  lemma Realise(t: Tree, rs: seq<Request>, order: seq<nat>, announced: seq<nat>) returns (es: seq<Event>, s: State)
    requires Permutes(rs, order) && Permutes(rs, announced)
    ensures Reached(t, rs, es, s) && Finished(rs, s)
    ensures s.order == order && s.announced == announced
  {
    assert forall k :: 0 <= k < |order| ==> order[k] in order;
    assert forall k :: 0 <= k < |announced| ==> announced[k] in announced;
    es, s := SpawnAll(t, rs, |rs|);
    es, s := CommitAll(t, rs, es, s, order);
    es, s := AnnounceAll(t, rs, es, s, announced);
    es, s := SendRest(t, rs, es, s);
  }
}
