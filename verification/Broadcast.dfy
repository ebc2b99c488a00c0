/**
 * Any number of nodes, any messages in flight, any order of delivery: without new client operations the
 * network runs dry, although handling a lock update sends a new message to every peer.
 */
module Broadcast {
  import opened Types
  import opened Tree
  import opened Operations

  datatype Node = Node(tree: Tree, queue: seq<Update>, peers: seq<nat>, up: bool)

  datatype Copy = Copy(to: nat, update: Update)

  datatype Net = Net(nodes: seq<Node>, wire: seq<Copy>)

  datatype Event = Deliver(k: nat) | Lose(k: nat) | Handle(n: nat, granted: Lock)

  ghost predicate Enabled(s: Net, e: Event) {
    match e
    case Deliver(k) => k < |s.wire| && s.wire[k].to < |s.nodes| && s.nodes[s.wire[k].to].up
    case Lose(k) => k < |s.wire|
    case Handle(n, _) => n < |s.nodes| && s.nodes[n].up && s.nodes[n].queue != []
  }

  /** One copy of each update to each peer. */
  function CopiesFor(us: seq<Update>, peers: seq<nat>): seq<Copy> {
    if us == [] then []
    else seq(|peers|, i requires 0 <= i < |peers| => Copy(peers[i], us[0])) + CopiesFor(us[1..], peers)
  }

  function Without<T>(xs: seq<T>, k: nat): seq<T>
    requires k < |xs|
  {
    xs[..k] + xs[k + 1..]
  }

  ghost function Next(s: Net, e: Event): Net
    requires Enabled(s, e)
  {
    match e
    case Deliver(k) =>
      var c := s.wire[k];
      var node := s.nodes[c.to];
      Net(s.nodes[c.to := node.(queue := node.queue + [c.update])], Without(s.wire, k))
    case Lose(k) => s.(wire := Without(s.wire, k))
    case Handle(n, granted) =>
      var node := s.nodes[n];
      match Dispatch(node.tree, node.queue[0], granted)
      case Handled(t, sent) =>
        Net(s.nodes[n := node.(tree := t, queue := node.queue[1..])], s.wire + CopiesFor(sent, node.peers))
      case Panicked => s.(nodes := s.nodes[n := node.(queue := node.queue[1..], up := false)])
  }

  ghost predicate Execution(s: Net, es: seq<Event>, s': Net)
    decreases |es|
  {
    if es == [] then s == s' else Enabled(s, es[0]) && Execution(Next(s, es[0]), es[1..], s')
  }

  /** No node knows more than `p` peers. */
  predicate PeersAtMost(s: Net, p: nat) {
    forall n :: 0 <= n < |s.nodes| ==> |s.nodes[n].peers| <= p
  }

  /** A queued update counts once for itself, and twice for each copy that handling it may still cause. */
  function Weight(u: Update, p: nat): nat {
    if u.LockCreate? || u.LockDelete? then 2 * p + 1 else 1
  }

  function QueueWeight(us: seq<Update>, p: nat): nat {
    if us == [] then 0 else Weight(us[0], p) + QueueWeight(us[1..], p)
  }

  function WireWeight(cs: seq<Copy>, p: nat): nat {
    if cs == [] then 0 else Weight(cs[0].update, p) + 1 + WireWeight(cs[1..], p)
  }

  function NodesWeight(nodes: seq<Node>, p: nat): nat {
    if nodes == [] then 0 else QueueWeight(nodes[0].queue, p) + NodesWeight(nodes[1..], p)
  }

  function Measure(s: Net, p: nat): nat {
    NodesWeight(s.nodes, p) + WireWeight(s.wire, p)
  }

  lemma {:induction false} QueueWeightAppend(us: seq<Update>, u: Update, p: nat)
    ensures QueueWeight(us + [u], p) == QueueWeight(us, p) + Weight(u, p)
  {
    if us == [] {
      assert ([] + [u])[1..] == [];
    } else {
      assert (us + [u])[1..] == us[1..] + [u];
      QueueWeightAppend(us[1..], u, p);
    }
  }

  lemma {:induction false} WireWeightAppend(cs: seq<Copy>, ds: seq<Copy>, p: nat)
    ensures WireWeight(cs + ds, p) == WireWeight(cs, p) + WireWeight(ds, p)
  {
    if cs == [] {
      assert cs + ds == ds;
    } else {
      assert (cs + ds)[1..] == cs[1..] + ds;
      WireWeightAppend(cs[1..], ds, p);
    }
  }

  lemma WireWeightWithout(cs: seq<Copy>, k: nat, p: nat)
    requires k < |cs|
    ensures WireWeight(cs, p) == WireWeight(Without(cs, k), p) + Weight(cs[k].update, p) + 1
  {
    assert cs == cs[..k] + ([cs[k]] + cs[k + 1..]);
    WireWeightAppend(cs[..k], [cs[k]] + cs[k + 1..], p);
    WireWeightAppend([cs[k]], cs[k + 1..], p);
    WireWeightAppend(cs[..k], cs[k + 1..], p);
  }

  lemma {:induction false} NodesWeightUpdate(nodes: seq<Node>, n: nat, node: Node, p: nat)
    requires n < |nodes|
    ensures NodesWeight(nodes[n := node], p) + QueueWeight(nodes[n].queue, p)
            == NodesWeight(nodes, p) + QueueWeight(node.queue, p)
  {
    if n == 0 {
      assert nodes[n := node][1..] == nodes[1..];
    } else {
      assert nodes[n := node][1..] == nodes[1..][n - 1 := node];
      NodesWeightUpdate(nodes[1..], n - 1, node, p);
    }
  }

  lemma {:induction false} PlainWireWeight(cs: seq<Copy>, p: nat)
    requires forall c :: c in cs ==> Weight(c.update, p) == 1
    ensures WireWeight(cs, p) == 2 * |cs|
  {
    if cs != [] {
      assert cs[0] in cs;
      PlainWireWeight(cs[1..], p);
    }
  }

  lemma CopiesOfOne(u: Update, peers: seq<nat>)
    ensures |CopiesFor([u], peers)| == |peers|
    ensures forall c :: c in CopiesFor([u], peers) ==> c.update == u
  {
    var copies := seq(|peers|, i requires 0 <= i < |peers| => Copy(peers[i], u));
    assert [u][1..] == [] && CopiesFor([], peers) == [];
    assert CopiesFor([u], peers) == copies + [] == copies;
  }

  /** Handling sends nothing for key and bucket updates, and at most one put per peer for lock updates. */
  lemma SentOnPlainly(t: Tree, u: Update, granted: Lock, peers: seq<nat>, p: nat)
    requires Dispatch(t, u, granted).Handled? && |peers| <= p
    ensures var copies := CopiesFor(Dispatch(t, u, granted).sent, peers);
            && (u.PutKey? || u.DeleteKey? || u.DeleteBucket? ==> copies == [])
            && |copies| <= |peers| && (forall c :: c in copies ==> c.update.PutKey?)
            && WireWeight(copies, p) < Weight(u, p)
  {
    var sent := Dispatch(t, u, granted).sent;
    assert |sent| <= 1 && (sent != [] ==> sent == [sent[0]] && sent[0].PutKey?);
    if sent != [] { CopiesOfOne(sent[0], peers); }
    PlainWireWeight(CopiesFor(sent, peers), p);
  }

  lemma EveryStepLowersTheMeasure(s: Net, e: Event, p: nat)
    requires Enabled(s, e) && PeersAtMost(s, p)
    ensures PeersAtMost(Next(s, e), p)
    ensures Measure(Next(s, e), p) < Measure(s, p)
  {
    match e
    case Deliver(k) =>
      var c := s.wire[k];
      var node := s.nodes[c.to];
      WireWeightWithout(s.wire, k, p);
      QueueWeightAppend(node.queue, c.update, p);
      NodesWeightUpdate(s.nodes, c.to, node.(queue := node.queue + [c.update]), p);
    case Lose(k) =>
      WireWeightWithout(s.wire, k, p);
    case Handle(n, granted) =>
      var node := s.nodes[n];
      var out := Dispatch(node.tree, node.queue[0], granted);
      NodesWeightUpdate(s.nodes, n, Next(s, e).nodes[n], p);
      if out.Handled? {
        SentOnPlainly(node.tree, node.queue[0], granted, node.peers, p);
        WireWeightAppend(s.wire, CopiesFor(out.sent, node.peers), p);
      }
  }

  lemma {:induction false} CountOneFanOut(peers: seq<nat>, x: Update, to: nat, u: Update)
    ensures multiset(seq(|peers|, i requires 0 <= i < |peers| => Copy(peers[i], x)))[Copy(to, u)]
            == if x == u then multiset(peers)[to] else 0
  {
    if peers != [] {
      CountOneFanOut(peers[1..], x, to, u);
      var rest := peers[1..];
      assert peers == [peers[0]] + rest;
      assert seq(|peers|, i requires 0 <= i < |peers| => Copy(peers[i], x))
          == [Copy(peers[0], x)] + seq(|rest|, i requires 0 <= i < |rest| => Copy(rest[i], x));
    }
  }

  /** Of an update sent on, each peer gets one copy: none for others, and none of anything else. */
  lemma CopiesForEachPeer(us: seq<Update>, peers: seq<nat>, to: nat, u: Update)
    requires |us| <= 1
    ensures multiset(CopiesFor(us, peers))[Copy(to, u)] == if us == [u] then multiset(peers)[to] else 0
  {
    if us != [] {
      var copies := seq(|peers|, i requires 0 <= i < |peers| => Copy(peers[i], us[0]));
      assert us == [us[0]] && us[1..] == [] && CopiesFor(us, peers) == copies + [] == copies;
      CountOneFanOut(peers, us[0], to, u);
    }
  }

  /** How often an update is waiting at a node or on its way to it. */
  function Load(s: Net, n: nat, u: Update): nat
    requires n < |s.nodes|
  {
    multiset(s.nodes[n].queue)[u] + multiset(s.wire)[Copy(n, u)]
  }

  lemma CountAppended<T>(xs: seq<T>, ys: seq<T>, x: T)
    ensures multiset(xs + ys)[x] == multiset(xs)[x] + multiset(ys)[x]
  {
  }

  lemma CountWithout<T>(xs: seq<T>, k: nat, x: T)
    requires k < |xs|
    ensures multiset(xs)[x] == multiset(Without(xs, k))[x] + if xs[k] == x then 1 else 0
  {
    assert xs == xs[..k] + ([xs[k]] + xs[k + 1..]);
  }

  /** Delivery moves updates and neither drops nor makes any. */
  lemma DeliveryConserves(s: Net, k: nat, n: nat, u: Update)
    requires Enabled(s, Deliver(k)) && n < |s.nodes|
    ensures |Next(s, Deliver(k)).nodes| == |s.nodes| && Load(Next(s, Deliver(k)), n, u) == Load(s, n, u)
  {
    CountWithout(s.wire, k, Copy(n, u));
  }

  /** Handling leaves the node with the tree the update leads to, or stops it, and leaves all other nodes alone. */
  lemma HandlingIsLocal(s: Net, m: nat, granted: Lock, n: nat)
    requires Enabled(s, Handle(m, granted)) && n < |s.nodes|
    ensures var node, node' := s.nodes[n], Next(s, Handle(m, granted)).nodes[n];
            var out := Dispatch(s.nodes[m].tree, s.nodes[m].queue[0], granted);
            if n != m then node' == node
            else
              && node'.queue == node.queue[1..] && node'.peers == node.peers
              && (node'.up <==> out.Handled?) && (out.Handled? ==> node'.tree == out.tree)
  {
  }

  /** A loss takes one copy away. */
  lemma LossAccounts(s: Net, k: nat, n: nat, u: Update)
    requires Enabled(s, Lose(k)) && n < |s.nodes|
    ensures Next(s, Lose(k)).nodes == s.nodes
    ensures Load(Next(s, Lose(k)), n, u) + (if s.wire[k] == Copy(n, u) then 1 else 0) == Load(s, n, u)
  {
    CountWithout(s.wire, k, Copy(n, u));
  }

  lemma HandlingTakesOne(s: Net, m: nat, granted: Lock, n: nat, u: Update)
    requires Enabled(s, Handle(m, granted)) && n < |s.nodes|
    ensures multiset(Next(s, Handle(m, granted)).nodes[n].queue)[u]
            + (if m == n && s.nodes[m].queue[0] == u then 1 else 0)
            == multiset(s.nodes[n].queue)[u]
  {
    HandlingIsLocal(s, m, granted, n);
    var queue := s.nodes[m].queue;
    assert queue == [queue[0]] + queue[1..];
  }

  lemma HandlingSends(s: Net, m: nat, granted: Lock, n: nat, u: Update)
    requires Enabled(s, Handle(m, granted))
    ensures var out := Dispatch(s.nodes[m].tree, s.nodes[m].queue[0], granted);
            multiset(Next(s, Handle(m, granted)).wire)[Copy(n, u)]
            == multiset(s.wire)[Copy(n, u)]
               + if out.Handled? && out.sent == [u] then multiset(s.nodes[m].peers)[n] else 0
  {
    var node := s.nodes[m];
    var out := Dispatch(node.tree, node.queue[0], granted);
    if out.Handled? {
      assert |out.sent| <= 1;
      CopiesForEachPeer(out.sent, node.peers, n, u);
      CountAppended(s.wire, CopiesFor(out.sent, node.peers), Copy(n, u));
    }
  }

  /** Handling takes one update off its own queue and adds for each peer what the update makes the node send on. */
  lemma HandlingAccounts(s: Net, m: nat, granted: Lock, n: nat, u: Update)
    requires Enabled(s, Handle(m, granted)) && n < |s.nodes|
    ensures var s', head := Next(s, Handle(m, granted)), s.nodes[m].queue[0];
            var out := Dispatch(s.nodes[m].tree, head, granted);
            && |s'.nodes| == |s.nodes|
            && Load(s', n, u) + (if m == n && head == u then 1 else 0)
               == Load(s, n, u) + if out.Handled? && out.sent == [u] then multiset(s.nodes[m].peers)[n] else 0
  {
    HandlingTakesOne(s, m, granted, n, u);
    HandlingSends(s, m, granted, n, u);
  }

  /** Broadcast termination: a run without client operations has no more steps than the first state's measure. */
  lemma {:induction false} RunsAreBounded(s: Net, es: seq<Event>, s': Net, p: nat)
    requires Execution(s, es, s') && PeersAtMost(s, p)
    ensures |es| + Measure(s', p) <= Measure(s, p)
    decreases |es|
  {
    if es != [] {
      EveryStepLowersTheMeasure(s, es[0], p);
      RunsAreBounded(Next(s, es[0]), es[1..], s', p);
    }
  }

  ghost predicate Drained(s: Net) {
    s.wire == [] && forall n :: 0 <= n < |s.nodes| && s.nodes[n].up ==> s.nodes[n].queue == []
  }

  /** A run stops exactly when nothing is in flight and nothing is queued at a running node. */
  lemma StuckMeansDrained(s: Net)
    ensures (forall e :: !Enabled(s, e)) <==> Drained(s)
  {
    if forall e :: !Enabled(s, e) {
      assert !Enabled(s, Lose(0));
      forall n | 0 <= n < |s.nodes| && s.nodes[n].up ensures s.nodes[n].queue == [] {
        assert !Enabled(s, Handle(n, Lock("", "", "", "", "", 0, 0)));
      }
    }
  }

  /** From every state some run of at most the measure's length drains the network. */
  lemma {:induction false} CanAlwaysDrain(s: Net, p: nat) returns (es: seq<Event>, s': Net)
    requires PeersAtMost(s, p)
    ensures Execution(s, es, s') && Drained(s') && |es| <= Measure(s, p)
    decreases Measure(s, p)
  {
    StuckMeansDrained(s);
    if Drained(s) {
      es, s' := [], s;
    } else {
      var e :| Enabled(s, e);
      EveryStepLowersTheMeasure(s, e, p);
      var rest;
      rest, s' := CanAlwaysDrain(Next(s, e), p);
      es := [e] + rest;
      assert es[1..] == rest;
    }
  }
}
