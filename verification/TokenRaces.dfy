/**
 * Several nodes that issue tokens, over links that keep the order of messages. Each broadcast is the sender's whole
 * store and replaces the receiver's, so that broadcasts that cross take tokens away, even from their issuers.
 */
module TokenRaces {
  import opened Types

  /**
   * `got[k][i]` counts the broadcasts of node `i` that node `k` has installed. `own` and `swept` are history
   * variables: the tokens each node issued and has not removed since, and all that was ever removed anywhere.
   */
  datatype Net = Net(
    stores: seq<TokenMap>, sent: seq<seq<TokenMap>>, got: seq<seq<nat>>, own: seq<set<string>>, swept: set<string>)

  datatype Event =
    | Issue(node: nat, id: string, tok: Token)
    | Resend(node: nat)
    | Receive(node: nat, sender: nat)
    | Sweep(node: nat, ids: set<string>)

  predicate Sized(s: Net) {
    && |s.sent| == |s.got| == |s.own| == |s.stores|
    && forall k :: 0 <= k < |s.got| ==> |s.got[k]| == |s.stores|
  }

  function Start(n: nat): (s: Net)
    ensures Sized(s)
  {
    Net(seq(n, _ => map[]), seq(n, _ => []), seq(n, _ => seq(n, _ => 0)), seq(n, _ => {}), {})
  }

  predicate Enabled(s: Net, e: Event)
    requires Sized(s)
  {
    match e
    case Issue(i, _, _) => i < |s.stores|
    case Resend(i) => i < |s.stores|
    case Receive(k, i) => k < |s.stores| && i < |s.stores| && k != i && s.got[k][i] < |s.sent[i]|
    case Sweep(k, _) => k < |s.stores|
  }

  function Mark(got: seq<nat>, i: nat, n: nat): seq<nat>
    requires i < |got|
  {
    got[i := n]
  }

  /** Node `i` broadcasts a store, which is its own from then on. */
  function Broadcast(s: Net, i: nat, store: TokenMap): (s': Net)
    requires Sized(s) && i < |s.stores|
    ensures Sized(s')
  {
    s.(stores := s.stores[i := store], sent := s.sent[i := s.sent[i] + [store]],
       got := s.got[i := Mark(s.got[i], i, |s.sent[i]| + 1)])
  }

  function Next(s: Net, e: Event): (s': Net)
    requires Sized(s) && Enabled(s, e)
    ensures Sized(s')
  {
    match e
    case Issue(i, id, tok) =>
      Broadcast(s, i, s.stores[i][id := tok]).(own := s.own[i := s.own[i] + {id}])
    case Resend(i) => Broadcast(s, i, s.stores[i])
    case Receive(k, i) =>
      s.(stores := s.stores[k := s.sent[i][s.got[k][i]]], got := s.got[k := Mark(s.got[k], i, s.got[k][i] + 1)])
    case Sweep(k, ids) =>
      s.(stores := s.stores[k := s.stores[k] - ids], own := s.own[k := s.own[k] - ids], swept := s.swept + ids)
  }

  predicate Execution(s: Net, es: seq<Event>, s': Net)
    requires Sized(s)
    decreases |es|
  {
    if es == [] then s == s' else Enabled(s, es[0]) && Execution(Next(s, es[0]), es[1..], s')
  }

  lemma {:induction false} StaysAway(s: Net, es: seq<Event>, s': Net, k: nat, id: string)
    requires Sized(s) && Execution(s, es, s') && k < |s.stores| && id !in s.stores[k]
    requires forall e :: e in es ==> !(e.Receive? && e.node == k) && !(e.Issue? && e.node == k && e.id == id)
    ensures |s'.stores| == |s.stores| && id !in s'.stores[k]
    decreases |es|
  {
    if es != [] {
      assert es[0] in es;
      StaysAway(Next(s, es[0]), es[1..], s', k, id);
    }
  }

  /** What is removed at a node stays away from it until it is issued there again or comes back in a broadcast. */
  lemma {:induction false} RemovedStaysAway(s: Net, es: seq<Event>, s': Net, k: nat, id: string)
    requires Sized(s) && Execution(s, es, s') && k < |s.stores|
    requires es != [] && es[0].Sweep? && es[0].node == k && id in es[0].ids
    requires forall e :: e in es[1..] ==> !(e.Receive? && e.node == k) && !(e.Issue? && e.node == k && e.id == id)
    ensures |s'.stores| == |s.stores| && id !in s'.stores[k]
  {
    StaysAway(Next(s, es[0]), es[1..], s', k, id);
  }

  // --- Who may broadcast ------------------------------------------------------------------------------------

  /** Only these nodes issue tokens or broadcast their stores. */
  predicate OnlyFrom(es: seq<Event>, senders: set<nat>) {
    forall e :: e in es && (e.Issue? || e.Resend?) ==> e.node in senders
  }

  /** Every node holds the tokens it issued and did not remove. */
  predicate KeepsOwn(s: Net)
    requires Sized(s)
  {
    forall k :: 0 <= k < |s.stores| ==> s.own[k] <= s.stores[k].Keys
  }

  ghost predicate AlwaysKeepsOwn(n: nat, senders: set<nat>) {
    forall es, s :: Execution(Start(n), es, s) && Sized(s) && OnlyFrom(es, senders) ==> KeepsOwn(s)
  }

  /** Nodes other than `i` have sent and issued nothing. */
  predicate SoleSender(s: Net, i: nat)
    requires Sized(s)
  {
    KeepsOwn(s) && forall k :: 0 <= k < |s.stores| && k != i ==> s.sent[k] == [] && s.own[k] == {}
  }

  lemma SoleSenderStep(s: Net, e: Event, i: nat)
    requires Sized(s) && SoleSender(s, i) && Enabled(s, e)
    requires e.Issue? || e.Resend? ==> e.node == i
    ensures SoleSender(Next(s, e), i)
  {
  }

  lemma {:induction false} SoleSenderAlways(s: Net, es: seq<Event>, s': Net, senders: set<nat>, i: nat)
    requires Sized(s) && SoleSender(s, i) && Execution(s, es, s') && OnlyFrom(es, senders)
    requires forall k :: k in senders && k < |s.stores| ==> k == i
    ensures Sized(s') && SoleSender(s', i)
    decreases |es|
  {
    if es != [] {
      assert es[0] in es;
      SoleSenderStep(s, es[0], i);
      SoleSenderAlways(Next(s, es[0]), es[1..], s', senders, i);
    }
  }

  /** Two nodes issue a token each at the same time: the first to hear of the other loses its own. */
  lemma CrossedIssuesLoseTokens(n: nat, i: nat, j: nat, x: string, y: string, tok: Token)
      returns (es: seq<Event>, s: Net)
    requires i < n && j < n && i != j && x != y
    ensures es == [Issue(i, x, tok), Issue(j, y, tok), Receive(i, j)]
    ensures Execution(Start(n), es, s) && Sized(s) && s.swept == {}
    ensures |s.stores| == n && x in s.own[i] && x !in s.stores[i]
  {
    es := [Issue(i, x, tok), Issue(j, y, tok), Receive(i, j)];
    var s1 := Next(Start(n), es[0]);
    var s2 := Next(s1, es[1]);
    s := Next(s2, es[2]);
    assert es[1..] == [es[1], es[2]] && es[1..][1..] == [es[2]] && es[1..][1..][1..] == [];
    assert Execution(s, [], s);
    assert Execution(s2, es[1..][1..], s);
    assert Execution(s1, es[1..], s);
  }

  /** Nodes always hold their own live tokens if and only if no two of them broadcast. */
  lemma KeepsOwnExactly(n: nat, senders: set<nat>)
    ensures AlwaysKeepsOwn(n, senders) <==> forall i, j :: i in senders && j in senders && i < n && j < n ==> i == j
  {
    if i, j :| i in senders && j in senders && i < n && j < n && i != j {
      var es, s := CrossedIssuesLoseTokens(n, i, j, "x", "y", Token(0, 0, "", "", "", ""));
      assert !KeepsOwn(s);
      assert OnlyFrom(es, senders);
    } else {
      var i := n;
      if k :| k in senders && k < n { i := k; }
      forall es, s | Execution(Start(n), es, s) && Sized(s) && OnlyFrom(es, senders) ensures KeepsOwn(s) {
        SoleSenderAlways(Start(n), es, s, senders, i);
      }
    }
  }

  // --- When to broadcast ------------------------------------------------------------------------------------

  predicate Pending(s: Net, k: nat, i: nat)
    requires Sized(s) && k < |s.stores| && i < |s.stores|
  {
    s.got[k][i] < |s.sent[i]|
  }

  /** Nothing is on its way. */
  predicate Quiet(s: Net)
    requires Sized(s)
  {
    forall k: nat, i: nat :: k < |s.stores| && i < |s.stores| ==> !Pending(s, k, i)
  }

  /** Every broadcast waits for the one before to have reached everybody. */
  predicate Settled(s: Net, es: seq<Event>)
    requires Sized(s)
    decreases |es|
  {
    es != [] ==>
      && (es[0].Issue? || es[0].Resend? ==> Quiet(s))
      && (Enabled(s, es[0]) ==> Settled(Next(s, es[0]), es[1..]))
  }

  /** A store with all tokens that were issued and nowhere removed. */
  predicate Complete(s: Net, store: TokenMap) {
    forall i, id :: 0 <= i < |s.own| && id in s.own[i] && id !in s.swept ==> id in store
  }

  /** Of each sender at most the last broadcast is on its way, and it is complete; no two senders have one. */
  predicate OneInFlight(s: Net)
    requires Sized(s)
  {
    && (forall k: nat, i: nat :: k < |s.stores| && i < |s.stores| && Pending(s, k, i) ==>
          s.got[k][i] == |s.sent[i]| - 1 && Complete(s, s.sent[i][s.got[k][i]]))
    && (forall k: nat, i: nat, l: nat, j: nat ::
          (k < |s.stores| && i < |s.stores| && l < |s.stores| && j < |s.stores|
           && Pending(s, k, i) && Pending(s, l, j)) ==> i == j)
  }

  /** A node holds its own tokens, and all tokens unless it has a broadcast to install, save what was removed. */
  predicate HoldsTokens(s: Net, k: nat)
    requires Sized(s) && k < |s.stores|
  {
    && s.own[k] - s.swept <= s.stores[k].Keys
    && s.got[k][k] == |s.sent[k]| && (forall i :: 0 <= i < |s.stores| ==> s.got[k][i] <= |s.sent[i]|)
    && ((forall i: nat :: i < |s.stores| ==> !Pending(s, k, i)) ==> Complete(s, s.stores[k]))
  }

  predicate SettledInv(s: Net)
    requires Sized(s)
  {
    OneInFlight(s) && forall k: nat :: k < |s.stores| ==> HoldsTokens(s, k)
  }

  lemma BroadcastSettles(s: Net, e: Event)
    requires Sized(s) && SettledInv(s) && Enabled(s, e) && (e.Issue? || e.Resend?) && Quiet(s)
    ensures SettledInv(Next(s, e))
  {
    var s', i := Next(s, e), e.node;
    assert HoldsTokens(s, i) && Complete(s', s'.stores[i]);
    forall k: nat, l: nat | k < |s.stores| && l < |s.stores| && Pending(s', k, l)
      ensures l == i && s'.got[k][l] == |s'.sent[l]| - 1
    {
      assert !Pending(s, k, l);
    }
    forall k: nat | k < |s.stores| ensures HoldsTokens(s', k) {
      assert HoldsTokens(s, k) && !Pending(s, k, i);
      assert k != i ==> Pending(s', k, i);
    }
  }

  lemma ReceiptSettles(s: Net, e: Event)
    requires Sized(s) && SettledInv(s) && Enabled(s, e) && e.Receive?
    ensures SettledInv(Next(s, e))
  {
    var s', k, i := Next(s, e), e.node, e.sender;
    assert Pending(s, k, i) && HoldsTokens(s, k);
    forall l: nat, j: nat | l < |s.stores| && j < |s.stores| && Pending(s', l, j)
      ensures Pending(s, l, j) && s'.got[l][j] == s.got[l][j]
    {
    }
    forall l: nat | l < |s.stores| ensures HoldsTokens(s', l) {
      assert HoldsTokens(s, l);
      if l != k {
        forall j: nat | j < |s.stores| ensures Pending(s', l, j) <==> Pending(s, l, j) { }
      }
    }
  }

  lemma SweepSettles(s: Net, e: Event)
    requires Sized(s) && SettledInv(s) && Enabled(s, e) && e.Sweep?
    ensures SettledInv(Next(s, e))
  {
    var s', k := Next(s, e), e.node;
    forall l: nat, j: nat | l < |s.stores| && j < |s.stores| ensures Pending(s', l, j) <==> Pending(s, l, j) { }
    forall l: nat | l < |s.stores| ensures HoldsTokens(s', l) {
      assert HoldsTokens(s, l);
    }
  }

  lemma {:induction false} SettledAlways(s: Net, es: seq<Event>, s': Net)
    requires Sized(s) && SettledInv(s) && Execution(s, es, s') && Settled(s, es)
    ensures Sized(s') && SettledInv(s')
    decreases |es|
  {
    if es != [] {
      if es[0].Receive? {
        ReceiptSettles(s, es[0]);
      } else if es[0].Sweep? {
        SweepSettles(s, es[0]);
      } else {
        BroadcastSettles(s, es[0]);
      }
      SettledAlways(Next(s, es[0]), es[1..], s');
    }
  }

  /**
   * If every broadcast waits for the one before to have reached everybody, any number of nodes may issue tokens: a
   * node never loses its own, and all nodes hold all tokens once nothing is on its way, save those removed.
   */
  lemma SettledIssuersKeepTokens(n: nat, es: seq<Event>, s: Net)
    requires Execution(Start(n), es, s) && Sized(s) && Settled(Start(n), es)
    ensures forall k :: 0 <= k < |s.stores| ==> s.own[k] - s.swept <= s.stores[k].Keys
    ensures Quiet(s) ==> forall k, i, id ::
              0 <= k < |s.stores| && 0 <= i < |s.stores| && id in s.own[i] && id !in s.swept ==> id in s.stores[k]
  {
    SettledAlways(Start(n), es, s);
    forall k | 0 <= k < |s.stores| ensures s.own[k] - s.swept <= s.stores[k].Keys {
      assert HoldsTokens(s, k);
    }
    if Quiet(s) {
      forall k: nat | k < |s.stores| ensures Complete(s, s.stores[k]) { assert HoldsTokens(s, k); }
    }
  }
}
