/**
 * One writing node and its peers, over links that keep the order of messages. A node may join late: at some
 * point the writer learns of it and sends it every update from then on; at some point, before or after, it asks
 * another node for a snapshot, which it installs later; and only then does it work off its queue. The node it
 * asks need not be the writer, and need not be up to date.
 */
module Replication {
  import opened Types
  import opened Tree
  import opened Updates
  import opened Replay
  import opened Operations
  import opened Traces
  import opened Convergence

  /**
   * The last four are history variables. The tree of a ready peer, or the snapshot of one that is not ready
   * yet, is woven from what the writer showed after `floor` to `ceil` updates. `from` was the floor of the
   * snapshot when it was taken, and `connectedAt` counts the updates sent before the writer knew the peer.
   */
  datatype Peer = Peer(
    tree: Tree, connected: bool, link: seq<Update>, queue: seq<Update>, ready: bool, snapshot: Option<Tree>,
    floor: nat, ceil: nat, from: nat, connectedAt: nat)

  /** `origin`, `ops` and `log` are history variables: the writer's first tree, its operations, what it sent. */
  datatype System = System(
    writer: Tree, peers: map<string, Peer>, origin: Tree, ops: seq<ClientOp>, log: seq<Update>)

  datatype Source = Writer | Neighbour(peer: string)

  datatype Event =
    | Client(op: ClientOp)
    | Boot(id: string, own: Tree)
    | Connect(id: string)
    | Snapshot(id: string, source: Source)
    | Install(id: string)
    | Deliver(id: string)
    | Handle(id: string)

  ghost predicate Init(s: System) {
    && s.origin == s.writer && s.ops == [] && s.log == []
    && forall id :: id in s.peers ==> s.peers[id] == Peer(s.writer, true, [], [], true, None, 0, 0, 0, 0)
  }

  ghost predicate Enabled(s: System, e: Event) {
    match e
    case Client(op) => Allowed(s.writer, op)
    case Boot(id, _) => id !in s.peers
    case Connect(id) => id in s.peers && !s.peers[id].connected
    case Snapshot(id, source) =>
      && id in s.peers && !s.peers[id].ready && s.peers[id].snapshot == None
      && (source.Neighbour? ==> source.peer in s.peers && s.peers[source.peer].ready)
    case Install(id) => id in s.peers && !s.peers[id].ready && s.peers[id].snapshot.Some?
    case Deliver(id) => id in s.peers && s.peers[id].link != []
    case Handle(id) => id in s.peers && s.peers[id].ready && s.peers[id].queue != []
  }

  function Pending(p: Peer): seq<Update> {
    p.queue + p.link
  }

  function Receiving(p: Peer, sent: seq<Update>): Peer {
    if p.connected then p.(link := p.link + sent) else p
  }

  /** An emission reaches the links of the peers the writer knows. */
  function AfterEmission(peers: map<string, Peer>, id: string, sent: seq<Update>): Peer
    requires id in peers
  {
    Receiving(peers[id], sent)
  }

  function Max(a: nat, b: nat): nat {
    if a < b then b else a
  }

  /** Handling the writer's update number `m`. */
  ghost function Handling(p: Peer, m: nat): Peer
    requires p.queue != []
  {
    p.(tree := Apply(p.tree, p.queue[0]), queue := p.queue[1..],
       floor := if m <= p.floor then m + 1 else p.floor, ceil := Max(p.ceil, m + 1))
  }

  ghost function Next(s: System, e: Event): System
    requires Enabled(s, e)
  {
    match e
    case Client(op) =>
      var sent := Sent(s.writer, op);
      s.(writer := Local(s.writer, op), ops := s.ops + [op], log := s.log + sent,
         peers := map id | id in s.peers :: AfterEmission(s.peers, id, sent))
    case Boot(id, own) =>
      s.(peers := s.peers[id := Peer(own, false, [], [], false, None, 0, 0, 0, 0)])
    case Connect(id) =>
      s.(peers := s.peers[id := s.peers[id].(connected := true, connectedAt := |s.log|)])
    case Snapshot(id, source) =>
      var p := s.peers[id];
      s.(peers := s.peers[id :=
        match source
        case Writer => p.(snapshot := Some(s.writer), floor := |s.log|, ceil := |s.log|, from := |s.log|)
        case Neighbour(other) =>
          var q := s.peers[other];
          p.(snapshot := Some(q.tree), floor := q.floor, ceil := q.ceil, from := q.floor)])
    case Install(id) =>
      s.(peers := s.peers[id := s.peers[id].(tree := s.peers[id].snapshot.value, ready := true)])
    case Deliver(id) =>
      var p := s.peers[id];
      s.(peers := s.peers[id := p.(link := p.link[1..], queue := p.queue + [p.link[0]])])
    case Handle(id) =>
      var p := s.peers[id];
      s.(peers := s.peers[id := Handling(p, if |Pending(p)| <= |s.log| then |s.log| - |Pending(p)| else 0)])
  }

  ghost predicate Execution(s: System, es: seq<Event>, s': System)
    decreases |es|
  {
    if es == [] then s == s' else Enabled(s, es[0]) && Execution(Next(s, es[0]), es[1..], s')
  }

  // --- The invariant ----------------------------------------------------------------------------------------

  /** How many updates of the log a connected peer is past. */
  function Position(log: seq<Update>, p: Peer): int {
    |log| - |Pending(p)|
  }

  ghost predicate LinkInv(log: seq<Update>, p: Peer) {
    && (!p.connected ==> p.queue == [] && p.link == [])
    && (p.connected ==> 0 <= p.connectedAt <= Position(log, p) && Pending(p) == log[Position(log, p)..])
    && (p.connected && !p.ready ==> Position(log, p) == p.connectedAt)
  }

  ghost predicate TreeInv(origin: Tree, log: seq<Update>, p: Peer) {
    && (p.ready ==> Weave(p.tree, origin, log, p.floor, p.ceil))
    && (!p.ready && p.snapshot.Some? ==> Weave(p.snapshot.value, origin, log, p.floor, p.ceil))
    && (!p.ready || !p.connected ==> p.floor == p.from)
    && (p.ready && p.connected && p.connectedAt <= p.from ==> Position(log, p) <= p.floor)
  }

  ghost predicate PeerInv(origin: Tree, log: seq<Update>, p: Peer) {
    LinkInv(log, p) && TreeInv(origin, log, p)
  }

  ghost predicate WriterInv(s: System) {
    && AllAllowed(s.origin, s.ops) && s.log == SentLog(s.origin, s.ops)
    && Emittable(s.origin, s.log) && s.writer == Run(s.origin, s.log) == LocalRun(s.origin, s.ops)
  }

  ghost predicate Inv(s: System) {
    WriterInv(s) && forall id :: id in s.peers ==> PeerInv(s.origin, s.log, s.peers[id])
  }

  lemma WriterStep(s: System, op: ClientOp)
    requires WriterInv(s) && Allowed(s.writer, op)
    ensures WriterInv(Next(s, Client(op)))
  {
    OneMoreOp(s.origin, s.ops, op);
    OneMoreSent(s.origin, s.ops, op);
    SentIsFaithful(s.writer, op);
    EmittableAppend(s.origin, s.log, Sent(s.writer, op));
    RunAppend(s.origin, s.log, Sent(s.writer, op));
  }

  lemma ReceivingKeepsPeer(origin: Tree, log: seq<Update>, p: Peer, sent: seq<Update>)
    requires PeerInv(origin, log, p)
    ensures PeerInv(origin, log + sent, Receiving(p, sent))
  {
    if p.connected {
      var m := Position(log, p);
      assert Pending(Receiving(p, sent)) == Pending(p) + sent;
      assert (log + sent)[m..] == log[m..] + sent;
    }
    if p.ready { WeaveUnderLongerLog(p.tree, origin, log, sent, p.floor, p.ceil); }
    if !p.ready && p.snapshot.Some? {
      WeaveUnderLongerLog(p.snapshot.value, origin, log, sent, p.floor, p.ceil);
    }
  }

  lemma HandlingKeepsLink(log: seq<Update>, p: Peer)
    requires LinkInv(log, p) && p.ready && p.queue != []
    ensures var m := Position(log, p);
            && 0 <= m < |log| && p.queue[0] == log[m]
            && LinkInv(log, Handling(p, m)) && Position(log, Handling(p, m)) == m + 1
  {
    var m := Position(log, p);
    assert Pending(p)[0] == log[m];
    assert p.queue[1..] + p.link == Pending(p)[1..];
    assert log[m..][1..] == log[m + 1..];
  }

  lemma HandlingKeepsPeer(origin: Tree, log: seq<Update>, p: Peer)
    requires Emittable(origin, log) && PeerInv(origin, log, p) && p.ready && p.queue != []
    ensures Position(log, p) >= 0 && PeerInv(origin, log, Handling(p, Position(log, p)))
  {
    HandlingKeepsLink(log, p);
    var m := Position(log, p);
    var lo, hi := if m <= p.floor then m else p.floor, Max(p.ceil, m + 1);
    WidenWeave(p.tree, origin, log, p.floor, p.ceil, lo, hi);
    WeaveStep(p.tree, origin, log, lo, hi, m);
  }

  lemma DeliveryKeepsPeer(origin: Tree, log: seq<Update>, p: Peer)
    requires PeerInv(origin, log, p) && p.link != []
    ensures PeerInv(origin, log, p.(link := p.link[1..], queue := p.queue + [p.link[0]]))
  {
    assert p.link == [p.link[0]] + p.link[1..];
    assert (p.queue + [p.link[0]]) + p.link[1..] == p.queue + ([p.link[0]] + p.link[1..]);
  }

  lemma SnapshotKeepsPeer(s: System, id: string, source: Source)
    requires Inv(s) && Enabled(s, Snapshot(id, source))
    ensures PeerInv(s.origin, s.log, Next(s, Snapshot(id, source)).peers[id])
  {
    assert PeerInv(s.origin, s.log, s.peers[id]);
    if source.Writer? {
      assert s.log[..|s.log|] == s.log;
      MomentIsWeave(s.origin, s.log, |s.log|);
    } else {
      assert PeerInv(s.origin, s.log, s.peers[source.peer]);
    }
  }

  lemma PeerStep(s: System, e: Event)
    requires Inv(s) && !e.Client? && Enabled(s, e)
    ensures PeerInv(s.origin, s.log, Next(s, e).peers[e.id])
  {
    match e
    case Boot(_, _) =>
    case Connect(id) =>
      assert PeerInv(s.origin, s.log, s.peers[id]);
      assert s.log[|s.log|..] == [];
    case Snapshot(id, source) =>
      SnapshotKeepsPeer(s, id, source);
    case Install(id) =>
      assert PeerInv(s.origin, s.log, s.peers[id]);
    case Deliver(id) =>
      DeliveryKeepsPeer(s.origin, s.log, s.peers[id]);
    case Handle(id) =>
      HandlingKeepsPeer(s.origin, s.log, s.peers[id]);
  }

  lemma InvStep(s: System, e: Event)
    requires Inv(s) && Enabled(s, e)
    ensures Inv(Next(s, e))
  {
    if e.Client? {
      WriterStep(s, e.op);
      forall id | id in s.peers
        ensures PeerInv(s.origin, Next(s, e).log, Next(s, e).peers[id])
      {
        ReceivingKeepsPeer(s.origin, s.log, s.peers[id], Sent(s.writer, e.op));
      }
    } else {
      PeerStep(s, e);
    }
  }

  lemma {:induction false} InvAlways(s: System, es: seq<Event>, s': System)
    requires Inv(s) && Execution(s, es, s')
    ensures Inv(s')
    decreases |es|
  {
    if es != [] {
      InvStep(s, es[0]);
      InvAlways(Next(s, es[0]), es[1..], s');
    }
  }

  lemma InitInv(s: System)
    requires Init(s)
    ensures Inv(s)
  {
    assert s.log[..0] == [];
    MomentIsWeave(s.origin, s.log, 0);
    forall id | id in s.peers ensures PeerInv(s.origin, s.log, s.peers[id]) {
      assert s.log[0..] == [];
    }
  }

  // --- What peers show --------------------------------------------------------------------------------------

  /**
   * The peer misses nothing: its snapshot held all that was sent before it was connected. Peers present from
   * the start miss nothing.
   */
  predicate Covered(p: Peer) {
    p.ready && p.connected && p.connectedAt <= p.from
  }

  /** A covered peer that is also past everything its snapshot may have held in part. */
  predicate CaughtUp(s: System, p: Peer) {
    Covered(p) && p.ceil + |Pending(p)| <= |s.log|
  }

  lemma CaughtUpPeersShowAMoment(s: System, id: string)
    requires Inv(s) && id in s.peers && CaughtUp(s, s.peers[id])
    ensures 0 <= Position(s.log, s.peers[id]) <= |s.log|
    ensures s.peers[id].tree == After(s.origin, s.log, Position(s.log, s.peers[id]))
  {
    assert PeerInv(s.origin, s.log, s.peers[id]);
    WeaveOfOne(s.peers[id].tree, s.origin, s.log, s.peers[id].floor);
  }

  /**
   * Replica simulation. In every state of every run, a caught-up peer shows the tree the writer had after
   * some prefix of its operations.
   */
  lemma PeersShowAWriterState(s0: System, es: seq<Event>, s: System, id: string) returns (k: nat)
    requires Init(s0) && Execution(s0, es, s)
    requires id in s.peers && CaughtUp(s, s.peers[id])
    ensures k <= |s.ops| && AllAllowed(s.origin, s.ops[..k])
    ensures s.peers[id].tree == LocalRun(s.origin, s.ops[..k])
  {
    InitInv(s0);
    InvAlways(s0, es, s);
    CaughtUpPeersShowAMoment(s, id);
    k := LogPrefixIsOpPrefix(s.origin, s.ops, Position(s.log, s.peers[id]));
  }

  /** A peer from the start: what it shows is always one moment, the one its link and queue say. */
  ghost predicate Founder(log: seq<Update>, p: Peer) {
    && p.ready && p.connected && p.from == 0 == p.connectedAt
    && p.floor == p.ceil == Position(log, p)
  }

  lemma {:induction false} FoundersStay(s: System, es: seq<Event>, s': System, id: string)
    requires Inv(s) && Execution(s, es, s')
    requires id in s.peers && Founder(s.log, s.peers[id])
    ensures id in s'.peers && Founder(s'.log, s'.peers[id])
    decreases |es|
  {
    if es != [] {
      var e, p := es[0], s.peers[id];
      InvStep(s, e);
      assert PeerInv(s.origin, s.log, p);
      if e.Deliver? && e.id == id { DeliveryKeepsPeer(s.origin, s.log, p); }
      if e.Handle? && e.id == id { HandlingKeepsLink(s.log, p); }
      assert Founder(Next(s, e).log, Next(s, e).peers[id]);
      FoundersStay(Next(s, e), es[1..], s', id);
    }
  }

  /** In every state of every run a peer from the start shows the writer's tree after some of its operations. */
  lemma FoundersShowAWriterState(s0: System, es: seq<Event>, s: System, id: string) returns (k: nat)
    requires Init(s0) && Execution(s0, es, s) && id in s0.peers
    ensures id in s.peers && k <= |s.ops| && AllAllowed(s.origin, s.ops[..k])
    ensures s.peers[id].tree == LocalRun(s.origin, s.ops[..k])
  {
    InitInv(s0);
    FoundersStay(s0, es, s, id);
    k := PeersShowAWriterState(s0, es, s, id);
  }

  /** Once its link and queue are empty a covered peer, late joiner or not, holds the writer's tree. */
  lemma DrainedPeersEqualWriter(s0: System, es: seq<Event>, s: System, id: string)
    requires Init(s0) && Execution(s0, es, s)
    requires id in s.peers && Covered(s.peers[id]) && Pending(s.peers[id]) == []
    ensures s.peers[id].tree == s.writer
  {
    InitInv(s0);
    InvAlways(s0, es, s);
    assert PeerInv(s.origin, s.log, s.peers[id]);
    CaughtUpPeersShowAMoment(s, id);
    assert s.log[..|s.log|] == s.log;
  }

  /**
   * Whatever a ready peer misses, each path shows what the writer had there at some moment of a known window,
   * or nothing where that changed during the window.
   */
  lemma PeersShowAWeave(s0: System, es: seq<Event>, s: System, id: string)
    requires Init(s0) && Execution(s0, es, s)
    requires id in s.peers && s.peers[id].ready
    ensures Weave(s.peers[id].tree, s.origin, s.log, s.peers[id].floor, s.peers[id].ceil)
    ensures Covered(s.peers[id]) ==> |s.log| - |Pending(s.peers[id])| <= s.peers[id].floor
  {
    InitInv(s0);
    InvAlways(s0, es, s);
    assert PeerInv(s.origin, s.log, s.peers[id]);
  }

  /**
   * Links need not keep all of the order: a node that gets the writer's updates in any order that agrees with
   * the order of sending on conflicting pairs still ends with the writer's tree.
   */
  lemma WeakOrderSuffices(origin: Tree, ops: seq<ClientOp>, received: seq<Update>)
    requires AllAllowed(origin, ops)
    requires Reordering(Conflict, SentLog(origin, ops), received)
    ensures Run(origin, received) == LocalRun(origin, ops)
  {
    ReplicasConverge(origin, SentLog(origin, ops), received);
    SentLogIsFaithful(origin, ops);
  }
}
