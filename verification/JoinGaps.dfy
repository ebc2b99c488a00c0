/**
 * When a late joiner is safe, exactly: it ends with the writer's tree, whatever happens, if and only if the node
 * it took its snapshot from had already applied everything the writer sent before it knew the joiner.
 */
module JoinGaps {
  import opened Types
  import opened Paths
  import opened Tree
  import opened Updates
  import opened Operations
  import opened Convergence
  import opened Replication

  /** A peer that is at work and has nothing left to apply. */
  predicate Drained(s: System, id: string) {
    id in s.peers && s.peers[id].ready && s.peers[id].connected && Pending(s.peers[id]) == []
  }

  lemma {:induction false} OneMoreEvent(s: System, es: seq<Event>, s': System, e: Event)
    requires Execution(s, es, s') && Enabled(s', e)
    ensures Execution(s, es + [e], Next(s', e))
    decreases |es|
  {
    if es == [] {
      assert (es + [e])[0] == e && (es + [e])[1..] == [];
    } else {
      assert (es + [e])[0] == es[0] && (es + [e])[1..] == es[1..] + [e];
      OneMoreEvent(Next(s, es[0]), es[1..], s', e);
    }
  }

  /** A put goes through, is sent as it is, and can be repeated. */
  lemma PutIsSent(t: Tree, key: string, obj: KVObject)
    requires PutOk(t, Components(key))
    ensures Sent(t, DoPut(key, obj)) == [PutKey(key, obj)]
    ensures PutOk(Local(t, DoPut(key, obj)), Components(key))
    ensures Look(Local(t, DoPut(key, obj)), Components(key)) == Stored(obj)
  {
    PutCanBeRepeated(t, PutKey(key, obj));
  }

  /** `n` puts of one object by the writer, while it knows no peer. */
  lemma {:induction false} ManyPuts(s: System, n: nat, key: string, obj: KVObject) returns (es: seq<Event>, s': System)
    requires PutOk(s.writer, Components(key))
    requires forall id :: id in s.peers ==> !s.peers[id].connected
    ensures Execution(s, es, s') && s'.peers == s.peers && |s'.log| == |s.log| + n
    ensures PutOk(s'.writer, Components(key))
    ensures if n == 0 then s' == s else Look(s'.writer, Components(key)) == Stored(obj)
  {
    if n == 0 {
      es, s' := [], s;
    } else {
      var es1, s1 := ManyPuts(s, n - 1, key, obj);
      var e := Client(DoPut(key, obj));
      PutIsSent(s1.writer, key, obj);
      OneMoreEvent(s, es1, s1, e);
      es, s' := es1 + [e], Next(s1, e);
      assert s'.peers == s.peers;
    }
  }

  /** A path and two objects to tell trees apart with. */
  const KEY := "a"

  const OLD := KVObject(0, false, "old", [], true)

  const NEW := KVObject(0, false, "new", [], true)

  lemma EmptyTakesPuts()
    ensures PutOk(EMPTY, Components(KEY)) && Look(EMPTY, Components(KEY)) == Absent
  {
    ComponentsOfPlain(KEY);
    var u := PutKey(KEY, OLD);
    assert Target(u) == [KEY];
    PutIntoEmptyFires(u);
    LookEmpty([KEY]);
  }

  lemma Extend(s0: System, es: seq<Event>, s: System, e: Event) returns (es': seq<Event>, s': System)
    requires Execution(s0, es, s) && Enabled(s, e)
    ensures es' == es + [e] && s' == Next(s, e) && Execution(s0, es', s')
  {
    OneMoreEvent(s0, es, s, e);
    es', s' := es + [e], Next(s, e);
  }

  lemma {:induction false} ExecutionAppend(s: System, es: seq<Event>, s1: System, fs: seq<Event>, s2: System)
    requires Execution(s, es, s1) && Execution(s1, fs, s2)
    ensures Execution(s, es + fs, s2)
    decreases |es|
  {
    if es == [] {
      assert es + fs == fs;
    } else {
      assert (es + fs)[0] == es[0] && (es + fs)[1..] == es[1..] + fs;
      ExecutionAppend(Next(s, es[0]), es[1..], s1, fs, s2);
    }
  }

  /**
   * For all positions with a gap between them there is a run in which a joiner takes its snapshot at the one,
   * is connected at the other, ends up with nothing left to apply, and differs from the writer.
   */
  lemma GapRun(from: nat, connect: nat) returns (s0: System, es: seq<Event>, s: System)
    requires from < connect
    ensures Init(s0) && Execution(s0, es, s) && Drained(s, "j")
    ensures s.peers["j"].from == from && s.peers["j"].connectedAt == connect
    ensures s.peers["j"].tree != s.writer
  {
    EmptyTakesPuts();
    s0 := System(EMPTY, map[], EMPTY, [], []);
    es, s := ManyPuts(s0, from, KEY, OLD);
    es, s := Extend(s0, es, s, Boot("j", EMPTY));
    es, s := Extend(s0, es, s, Snapshot("j", Writer));
    var more, s1 := ManyPuts(s, connect - from, KEY, NEW);
    ExecutionAppend(s0, es, s, more, s1);
    es, s := es + more, s1;
    es, s := Extend(s0, es, s, Connect("j"));
    es, s := Extend(s0, es, s, Install("j"));
  }

  /** In every run, a joiner with these two positions that has nothing left to apply holds the writer's tree. */
  ghost predicate SafePositions(from: nat, connect: nat) {
    forall s0, es, s, id ::
      Init(s0) && Execution(s0, es, s) && Drained(s, id)
      && s.peers[id].from == from && s.peers[id].connectedAt == connect
      ==> s.peers[id].tree == s.writer
  }

  /** Joining is safe if and only if the snapshot's source was past everything sent before the connection. */
  lemma CoverageIsExact(from: nat, connect: nat)
    ensures SafePositions(from, connect) <==> connect <= from
  {
    if connect <= from {
      forall s0, es, s, id | Init(s0) && Execution(s0, es, s) && Drained(s, id)
          && s.peers[id].from == from && s.peers[id].connectedAt == connect
        ensures s.peers[id].tree == s.writer
      {
        DrainedPeersEqualWriter(s0, es, s, id);
      }
    } else {
      var s0, es, s := GapRun(from, connect);
      assert s.peers["j"].tree != s.writer;
    }
  }

  /**
   * The gap as it arises without any loss: the writer sends an update to a peer, a joiner is connected while
   * the update is still on its way, and takes its snapshot from that peer.
   */
  lemma LaggingSourceLosesUpdates() returns (s0: System, es: seq<Event>, s: System)
    ensures Init(s0) && "p" in s0.peers && Execution(s0, es, s)
    ensures es == [Client(DoPut(KEY, NEW)), Boot("j", EMPTY), Connect("j"), Snapshot("j", Neighbour("p")), Install("j")]
    ensures Drained(s, "j") && s.peers["j"].tree != s.writer
    ensures "p" in s.peers && Pending(s.peers["p"]) == [PutKey(KEY, NEW)]
  {
    EmptyTakesPuts();
    PutIsSent(EMPTY, KEY, NEW);
    var p := Peer(EMPTY, true, [], [], true, None, 0, 0, 0, 0);
    s0 := System(EMPTY, map["p" := p], EMPTY, [], []);
    es, s := [], s0;
    es, s := Extend(s0, es, s, Client(DoPut(KEY, NEW)));
    es, s := Extend(s0, es, s, Boot("j", EMPTY));
    es, s := Extend(s0, es, s, Connect("j"));
    es, s := Extend(s0, es, s, Snapshot("j", Neighbour("p")));
    es, s := Extend(s0, es, s, Install("j"));
  }
}
