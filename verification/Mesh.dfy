/**
 * Many writing nodes. Each applies its own clients' operations at once and everybody else's updates as they
 * arrive; links keep the order of messages. Nodes that have received the same agree, if updates that conflict
 * come from one node only.
 */
module Mesh {
  import opened Types
  import opened Tree
  import opened Updates
  import opened Operations
  import opened Traces
  import opened Convergence

  /** An update and the node it comes from. */
  type Letter = (nat, Update)

  /**
   * `got[k][i]` counts the updates of node `i` that node `k` has applied; the rest of `sent[i]` is on its way,
   * on the link or in the queue. `origin` and `applied` are history variables: the common first tree, and what
   * each node has applied, in its own order.
   */
  datatype Net = Net(
    trees: seq<Tree>, sent: seq<seq<Update>>, got: seq<seq<nat>>, origin: Tree, applied: seq<seq<Letter>>)

  datatype Event = Client(node: nat, op: ClientOp) | Receive(node: nat, sender: nat)

  predicate Sized(s: Net) {
    && |s.sent| == |s.got| == |s.applied| == |s.trees|
    && forall k :: 0 <= k < |s.got| ==> |s.got[k]| == |s.trees|
  }

  function Start(n: nat, t: Tree): (s: Net)
    ensures Sized(s)
  {
    Net(seq(n, _ => t), seq(n, _ => []), seq(n, _ => seq(n, _ => 0)), t, seq(n, _ => []))
  }

  ghost predicate Enabled(s: Net, e: Event)
    requires Sized(s)
  {
    match e
    case Client(i, op) => i < |s.trees| && Allowed(s.trees[i], op)
    case Receive(k, i) => k < |s.trees| && i < |s.trees| && k != i && s.got[k][i] < |s.sent[i]|
  }

  function Tagged(i: nat, us: seq<Update>): seq<Letter> {
    seq(|us|, j requires 0 <= j < |us| => (i, us[j]))
  }

  function Mark(got: seq<nat>, i: nat, n: nat): seq<nat>
    requires i < |got|
  {
    got[i := n]
  }

  ghost function Next(s: Net, e: Event): (s': Net)
    requires Sized(s) && Enabled(s, e)
    ensures Sized(s')
  {
    match e
    case Client(i, op) =>
      var us := Sent(s.trees[i], op);
      s.(trees := s.trees[i := Local(s.trees[i], op)], sent := s.sent[i := s.sent[i] + us],
         got := s.got[i := Mark(s.got[i], i, |s.sent[i]| + |us|)],
         applied := s.applied[i := s.applied[i] + Tagged(i, us)])
    case Receive(k, i) =>
      var u := s.sent[i][s.got[k][i]];
      s.(trees := s.trees[k := Apply(s.trees[k], u)],
         got := s.got[k := Mark(s.got[k], i, s.got[k][i] + 1)],
         applied := s.applied[k := s.applied[k] + [(i, u)]])
  }

  ghost predicate Execution(s: Net, es: seq<Event>, s': Net)
    requires Sized(s)
    decreases |es|
  {
    if es == [] then s == s' else Enabled(s, es[0]) && Execution(Next(s, es[0]), es[1..], s')
  }

  /** The updates of one node among the letters, in order. */
  function From(ls: seq<Letter>, i: nat): seq<Update> {
    if ls == [] then []
    else if ls[0].0 == i then [ls[0].1] + From(ls[1..], i)
    else From(ls[1..], i)
  }

  lemma {:induction false} FromAppend(ls: seq<Letter>, ms: seq<Letter>, i: nat)
    ensures From(ls + ms, i) == From(ls, i) + From(ms, i)
  {
    if ls == [] {
      assert ls + ms == ms;
    } else {
      assert (ls + ms)[0] == ls[0] && (ls + ms)[1..] == ls[1..] + ms;
      FromAppend(ls[1..], ms, i);
      assert [ls[0].1] + (From(ls[1..], i) + From(ms, i)) == ([ls[0].1] + From(ls[1..], i)) + From(ms, i);
    }
  }

  lemma {:induction false} FromTagged(us: seq<Update>, i: nat, j: nat)
    ensures From(Tagged(i, us), j) == if i == j then us else []
  {
    if us != [] {
      assert Tagged(i, us)[0] == (i, us[0]) && Tagged(i, us)[1..] == Tagged(i, us[1..]);
      FromTagged(us[1..], i, j);
    }
  }

  /** Applying a letter's update, as a step of a run over letters. */
  ghost function Deliver(): (Tree, Letter) -> Tree {
    (t: Tree, l: Letter) => Apply(t, l.1)
  }

  lemma {:induction false} DeliverTagged(t: Tree, i: nat, us: seq<Update>)
    ensures RunAll(Deliver(), t, Tagged(i, us)) == Run(t, us)
    decreases |us|
  {
    if us != [] {
      assert Tagged(i, us)[0] == (i, us[0]) && Tagged(i, us)[1..] == Tagged(i, us[1..]);
      DeliverTagged(Apply(t, us[0]), i, us[1..]);
    }
  }

  // --- The invariant ----------------------------------------------------------------------------------------

  /** Node `k` has applied a prefix of what each node sent, in the order it was sent, and that made its tree. */
  ghost predicate NodeInv(tree: Tree, sent: seq<seq<Update>>, got: seq<nat>, origin: Tree, applied: seq<Letter>, k: nat)
    requires |got| == |sent|
  {
    && tree == RunAll(Deliver(), origin, applied)
    && (forall l :: l in applied ==> l.0 < |sent|)
    && (forall i :: 0 <= i < |sent| ==> got[i] <= |sent[i]| && From(applied, i) == sent[i][..got[i]])
    && (k < |sent| ==> got[k] == |sent[k]|)
  }

  ghost predicate Inv(s: Net) {
    Sized(s) && forall k :: 0 <= k < |s.trees| ==> NodeInv(s.trees[k], s.sent, s.got[k], s.origin, s.applied[k], k)
  }

  lemma OwnStep(s: Net, i: nat, op: ClientOp)
    requires Inv(s) && Enabled(s, Client(i, op))
    ensures var s' := Next(s, Client(i, op));
            NodeInv(s'.trees[i], s'.sent, s'.got[i], s'.origin, s'.applied[i], i)
  {
    var s', us := Next(s, Client(i, op)), Sent(s.trees[i], op);
    SentIsFaithful(s.trees[i], op);
    RunAllAppend(Deliver(), s.origin, s.applied[i], Tagged(i, us));
    DeliverTagged(s.trees[i], i, us);
    forall j | 0 <= j < |s.sent| ensures From(s'.applied[i], j) == s'.sent[j][..s'.got[i][j]] {
      FromAppend(s.applied[i], Tagged(i, us), j);
      FromTagged(us, i, j);
    }
    forall l | l in s'.applied[i] ensures l.0 < |s.sent| {
      assert l in s.applied[i] || l in Tagged(i, us);
    }
  }

  /** More updates sent by another node change nothing for a node that has not received them. */
  lemma OthersStep(s: Net, i: nat, op: ClientOp, k: nat)
    requires Inv(s) && Enabled(s, Client(i, op)) && k < |s.trees| && k != i
    ensures var s' := Next(s, Client(i, op));
            NodeInv(s'.trees[k], s'.sent, s'.got[k], s'.origin, s'.applied[k], k)
  {
    var s' := Next(s, Client(i, op));
    assert NodeInv(s.trees[k], s.sent, s.got[k], s.origin, s.applied[k], k);
    assert s'.sent[i][..s.got[k][i]] == s.sent[i][..s.got[k][i]];
  }

  lemma ReceiveStep(s: Net, k: nat, i: nat)
    requires Inv(s) && Enabled(s, Receive(k, i))
    ensures var s' := Next(s, Receive(k, i));
            NodeInv(s'.trees[k], s'.sent, s'.got[k], s'.origin, s'.applied[k], k)
  {
    var s', u := Next(s, Receive(k, i)), s.sent[i][s.got[k][i]];
    assert NodeInv(s.trees[k], s.sent, s.got[k], s.origin, s.applied[k], k);
    RunAllAppend(Deliver(), s.origin, s.applied[k], [(i, u)]);
    assert [(i, u)][1..] == [];
    assert RunAll(Deliver(), s.trees[k], [(i, u)]) == RunAll(Deliver(), Apply(s.trees[k], u), []);
    forall j | 0 <= j < |s.sent| ensures From(s'.applied[k], j) == s'.sent[j][..s'.got[k][j]] {
      FromAppend(s.applied[k], [(i, u)], j);
      assert From([(i, u)], j) == (if i == j then [u] else []);
      assert s.sent[i][..s.got[k][i] + 1] == s.sent[i][..s.got[k][i]] + [u];
    }
  }

  lemma InvStep(s: Net, e: Event)
    requires Inv(s) && Enabled(s, e)
    ensures Inv(Next(s, e))
  {
    var s' := Next(s, e);
    forall k | 0 <= k < |s'.trees| ensures NodeInv(s'.trees[k], s'.sent, s'.got[k], s'.origin, s'.applied[k], k) {
      assert NodeInv(s.trees[k], s.sent, s.got[k], s.origin, s.applied[k], k);
      match e
      case Client(i, op) => if k == i { OwnStep(s, i, op); } else { OthersStep(s, i, op, k); }
      case Receive(j, i) => if k == j { ReceiveStep(s, j, i); }
    }
  }

  lemma {:induction false} InvAlways(s: Net, es: seq<Event>, s': Net)
    requires Inv(s) && Execution(s, es, s')
    ensures Inv(s')
    decreases |es|
  {
    if es != [] {
      InvStep(s, es[0]);
      InvAlways(Next(s, es[0]), es[1..], s');
    }
  }

  lemma StartInv(n: nat, t: Tree)
    ensures Inv(Start(n, t))
  {
  }

  // --- Agreement --------------------------------------------------------------------------------------------

  /** Letters of one node keep their order everywhere; letters of different nodes only matter if they conflict. */
  predicate Ordered(a: Letter, b: Letter) {
    a.0 == b.0 || Conflict(a.1, b.1)
  }

  lemma DeliveriesCommute()
    ensures Dependence(Ordered) && Commutes(Deliver(), Ordered)
  {
    forall t, a: Letter, b: Letter | !Ordered(a, b)
      ensures Deliver()(Deliver()(t, a), b) == Deliver()(Deliver()(t, b), a)
    {
      UpdatesCommute(t, a.1, b.1);
    }
  }

  lemma {:induction false} CountFrom(ls: seq<Letter>, l: Letter)
    ensures multiset(ls)[l] == multiset(From(ls, l.0))[l.1]
    ensures l in ls <==> l.1 in From(ls, l.0)
  {
    if ls != [] {
      CountFrom(ls[1..], l);
      assert ls == [ls[0]] + ls[1..];
    }
  }

  /** The order of two letters of one node is their order among that node's updates. */
  lemma {:induction false} RestrictFrom(ls: seq<Letter>, i: nat, u: Update, w: Update)
    ensures Restrict(ls, (i, u), (i, w)) == Tagged(i, Restrict(From(ls, i), u, w))
    decreases |ls|
  {
    if ls != [] {
      RestrictFrom(ls[1..], i, u, w);
      if ls[0].0 == i {
        var x, us := ls[0].1, From(ls[1..], i);
        assert From(ls, i)[0] == x && From(ls, i)[1..] == us;
        var rest := Restrict(us, u, w);
        assert Tagged(i, [x] + rest) == [(i, x)] + Tagged(i, rest);
      }
    }
  }

  /** A pair of which one letter does not occur comes down to counting the other. */
  lemma {:induction false} RestrictAlone<L>(ls: seq<L>, a: L, b: L)
    requires a !in ls
    ensures Restrict(ls, a, b) == seq(multiset(ls)[b], _ => b)
    ensures Restrict(ls, b, a) == seq(multiset(ls)[b], _ => b)
    decreases |ls|
  {
    if ls != [] {
      assert ls == [ls[0]] + ls[1..];
      RestrictAlone(ls[1..], a, b);
      assert multiset(ls)[b] == multiset(ls[1..])[b] + if ls[0] == b then 1 else 0;
    }
  }

  /** No update of one node conflicts with an update of another. */
  ghost predicate OneWriterPerConflict(sent: seq<seq<Update>>) {
    forall i, j, u, w :: 0 <= i < |sent| && 0 <= j < |sent| && i != j && u in sent[i] && w in sent[j] ==>
      !Conflict(u, w)
  }

  /** Letters from the prefixes a node has received. */
  ghost predicate ComesFrom(ls: seq<Letter>, sent: seq<seq<Update>>) {
    forall l :: l in ls ==> l.0 < |sent| && l.1 in sent[l.0]
  }

  lemma SameLettersReordered(xs: seq<Letter>, ys: seq<Letter>, sent: seq<seq<Update>>)
    requires forall i :: From(xs, i) == From(ys, i)
    requires ComesFrom(xs, sent) && OneWriterPerConflict(sent)
    ensures Reordering(Ordered, xs, ys)
  {
    forall l ensures multiset(xs)[l] == multiset(ys)[l] && (l in xs <==> l in ys) {
      CountFrom(xs, l);
      CountFrom(ys, l);
    }
    forall a: Letter, b: Letter | a != b && Ordered(a, b) ensures Restrict(xs, a, b) == Restrict(ys, a, b) {
      if a.0 == b.0 {
        RestrictFrom(xs, a.0, a.1, b.1);
        RestrictFrom(ys, a.0, a.1, b.1);
      } else if a !in xs {
        RestrictAlone(xs, a, b);
        RestrictAlone(ys, a, b);
      } else {
        assert b !in xs;
        RestrictAlone(xs, b, a);
        RestrictAlone(ys, b, a);
      }
    }
  }

  lemma NodesLetters(s: Net, k: nat)
    requires Inv(s) && k < |s.trees|
    ensures ComesFrom(s.applied[k], s.sent)
    ensures forall i: nat :: From(s.applied[k], i) == if i < |s.sent| then s.sent[i][..s.got[k][i]] else []
  {
    assert NodeInv(s.trees[k], s.sent, s.got[k], s.origin, s.applied[k], k);
    forall l | l in s.applied[k] ensures l.1 in s.sent[l.0] {
      CountFrom(s.applied[k], l);
    }
    forall i: nat | i >= |s.sent| ensures From(s.applied[k], i) == [] {
      if From(s.applied[k], i) != [] {
        var u := From(s.applied[k], i)[0];
        CountFrom(s.applied[k], (i, u));
      }
    }
  }

  /**
   * In every state of every run, two nodes that have received the same updates hold the same tree, whatever the
   * orders in which they received them, if updates that conflict come from one node only.
   */
  lemma NodesAgree(n: nat, t: Tree, es: seq<Event>, s: Net, k: nat, l: nat)
    requires Execution(Start(n, t), es, s) && OneWriterPerConflict(s.sent)
    requires Sized(s) && k < |s.trees| && l < |s.trees| && s.got[k] == s.got[l]
    ensures s.trees[k] == s.trees[l]
  {
    StartInv(n, t);
    InvAlways(Start(n, t), es, s);
    NodesLetters(s, k);
    NodesLetters(s, l);
    SameLettersReordered(s.applied[k], s.applied[l], s.sent);
    DeliveriesCommute();
    ReorderedRunsAgree(Deliver(), Ordered, s.origin, s.applied[k], s.applied[l]);
    assert NodeInv(s.trees[k], s.sent, s.got[k], s.origin, s.applied[k], k);
    assert NodeInv(s.trees[l], s.sent, s.got[l], s.origin, s.applied[l], l);
  }

  /** Nothing is on its way any more. */
  predicate Quiet(s: Net)
    requires Sized(s)
  {
    forall k, i :: 0 <= k < |s.trees| && 0 <= i < |s.trees| ==> s.got[k][i] == |s.sent[i]|
  }

  /** Once links and queues are empty all nodes hold one tree. */
  lemma QuietNodesAgree(n: nat, t: Tree, es: seq<Event>, s: Net, k: nat, l: nat)
    requires Execution(Start(n, t), es, s) && OneWriterPerConflict(s.sent)
    requires Sized(s) && Quiet(s) && k < |s.trees| && l < |s.trees|
    ensures s.trees[k] == s.trees[l]
  {
    assert forall i :: 0 <= i < |s.trees| ==> s.got[k][i] == |s.sent[i]| == s.got[l][i];
    assert s.got[k] == s.got[l];
    NodesAgree(n, t, es, s, k, l);
  }

  lemma {:induction false} OneMoreEvent(s: Net, es: seq<Event>, s': Net, e: Event)
    requires Sized(s) && Execution(s, es, s') && Sized(s') && Enabled(s', e)
    ensures Execution(s, es + [e], Next(s', e))
    decreases |es|
  {
    if es == [] {
      assert (es + [e])[0] == e && (es + [e])[1..] == [];
    } else {
      assert (es + [e])[0] == es[0] && (es + [e])[1..] == es[1..] + [e];
      OneMoreEvent(Next(s, es[0]), es[1..], s', e);
    }
  }

  lemma Extend(s0: Net, es: seq<Event>, s: Net, e: Event) returns (es': seq<Event>, s': Net)
    requires Sized(s0) && Execution(s0, es, s) && Sized(s) && Enabled(s, e)
    ensures es' == es + [e] && s' == Next(s, e) && Execution(s0, es', s')
  {
    OneMoreEvent(s0, es, s, e);
    es', s' := es + [e], Next(s, e);
  }
}
