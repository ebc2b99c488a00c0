/**
 * Exactly when many writing nodes agree. A policy says which updates each node may send; all runs under it end in
 * agreement if and only if it gives no two nodes updates that conflict.
 */
module MeshExact {
  import opened Types
  import opened Paths
  import opened Tree
  import opened Updates
  import opened Operations
  import opened Convergence
  import opened Mesh

  /** For each node, the updates it may send. */
  type Policy = seq<iset<Update>>

  ghost predicate Obeys(s: Net, policy: Policy) {
    && |s.sent| == |policy|
    && forall i, u :: 0 <= i < |policy| && u in s.sent[i] ==> u in policy[i]
  }

  /** Whatever the first tree, whenever nothing is on its way any more all nodes hold one tree. */
  ghost predicate AlwaysAgree(policy: Policy) {
    forall t, es, s, k: nat, l: nat ::
      WellFormed(t) && Execution(Start(|policy|, t), es, s) && Sized(s) && Quiet(s) && Obeys(s, policy)
      && k < |policy| && l < |policy|
      ==> s.trees[k] == s.trees[l]
  }

  /** No two nodes may send updates that conflict, puts that can never go through aside. */
  ghost predicate Compatible(policy: Policy) {
    forall i, j, u, w ::
      0 <= i < |policy| && 0 <= j < |policy| && i != j && u in policy[i] && w in policy[j]
      && Possible(u) && Possible(w)
      ==> !Conflict(u, w)
  }

  // --- Compatible policies ----------------------------------------------------------------------------------

  ghost predicate SentPossible(s: Net) {
    forall i, u :: 0 <= i < |s.sent| && u in s.sent[i] ==> Possible(u)
  }

  lemma FiredIsPossible(t: Tree, u: Update)
    requires Fires(t, u)
    ensures Possible(u)
  {
    forall c | u.PutKey? && c in Target(u) ensures c != "" { }
  }

  /** Only puts that went through are sent. */
  lemma SentPossibleStep(s: Net, e: Event)
    requires Sized(s) && Enabled(s, e) && SentPossible(s)
    ensures SentPossible(Next(s, e))
  {
    if e.Client? {
      var us := Sent(s.trees[e.node], e.op);
      forall u | u in us ensures Possible(u) {
        if u.PutKey? { FiredIsPossible(s.trees[e.node], u); }
      }
    }
  }

  lemma {:induction false} SentPossibleAlways(s: Net, es: seq<Event>, s': Net)
    requires Sized(s) && SentPossible(s) && Execution(s, es, s')
    ensures SentPossible(s')
    decreases |es|
  {
    if es != [] {
      SentPossibleStep(s, es[0]);
      SentPossibleAlways(Next(s, es[0]), es[1..], s');
    }
  }

  // --- Runs -------------------------------------------------------------------------------------------------

  lemma {:induction false} OneMoreEvent(s: Net, es: seq<Event>, s': Net, e: Event)
    requires Sized(s) && Execution(s, es, s') && Sized(s') && Enabled(s', e)
    ensures Execution(s, es + [e], Next(s', e))
    decreases |es|
  {
    if es == [] {
      assert (es + [e])[0] == e && (es + [e])[1..] == [];
    } else {
      assert (es + [e])[0] == es[0] && (es + [e])[1..] == es[1..] + [e];
      OneMoreEvent(Next(s, es[0]), es[1..], s', e);
    }
  }

  lemma Extend(s0: Net, es: seq<Event>, s: Net, e: Event) returns (es': seq<Event>, s': Net)
    requires Sized(s0) && Execution(s0, es, s) && Sized(s) && Enabled(s, e)
    ensures es' == es + [e] && s' == Next(s, e) && Execution(s0, es', s')
  {
    OneMoreEvent(s0, es, s, e);
    es', s' := es + [e], Next(s, e);
  }

  /** The operation by which a client has a node send an update. */
  function Operation(u: Update): ClientOp
    requires u.PutKey? || IsDelete(u)
  {
    match u
    case PutKey(key, value) => DoPut(key, value)
    case DeleteKey(key) => DoDeleteKey(key)
    case DeleteBucket(key) => DoDeleteBucket(key)
  }

  /** A node carries out an update of its own. */
  ghost predicate Acted(s: Net, i: nat, u: Update, s': Net)
    requires Sized(s) && i < |s.trees|
  {
    && Sized(s')
    && s'.trees == s.trees[i := Apply(s.trees[i], u)] && s'.sent == s.sent[i := s.sent[i] + [u]]
    && s'.got == s.got[i := Mark(s.got[i], i, |s.sent[i]| + 1)]
  }

  /** A node receives the next update of another one. */
  ghost predicate Heard(s: Net, k: nat, i: nat, s': Net)
    requires Sized(s) && Enabled(s, Receive(k, i))
  {
    && Sized(s') && s'.sent == s.sent
    && s'.trees == s.trees[k := Apply(s.trees[k], s.sent[i][s.got[k][i]])]
    && s'.got == s.got[k := Mark(s.got[k], i, s.got[k][i] + 1)]
  }

  lemma Act(s0: Net, es: seq<Event>, s: Net, i: nat, u: Update) returns (es': seq<Event>, s': Net)
    requires Sized(s0) && Execution(s0, es, s) && Sized(s) && i < |s.trees|
    requires IsDelete(u) || (u.PutKey? && Fires(s.trees[i], u))
    ensures Execution(s0, es', s') && Acted(s, i, u, s')
  {
    es', s' := Extend(s0, es, s, Client(i, Operation(u)));
  }

  lemma Hear(s0: Net, es: seq<Event>, s: Net, k: nat, i: nat) returns (es': seq<Event>, s': Net)
    requires Sized(s0) && Execution(s0, es, s) && Sized(s) && Enabled(s, Receive(k, i))
    ensures Execution(s0, es', s') && Heard(s, k, i, s')
  {
    es', s' := Extend(s0, es, s, Receive(k, i));
  }

  /** Node `k` has received everything. */
  predicate Done(s: Net, k: nat)
    requires Sized(s) && k < |s.trees|
  {
    forall i :: 0 <= i < |s.trees| ==> s.got[k][i] == |s.sent[i]|
  }

  /** How many updates a node has yet to receive. */
  function RowLeft(row: seq<nat>, sent: seq<seq<Update>>): nat
    requires |row| == |sent|
  {
    if row == [] then 0
    else (if row[0] < |sent[0]| then |sent[0]| - row[0] else 0) + RowLeft(row[1..], sent[1..])
  }

  lemma {:induction false} RowLeftDrops(row: seq<nat>, sent: seq<seq<Update>>, i: nat)
    requires |row| == |sent| && i < |row| && row[i] < |sent[i]|
    ensures RowLeft(Mark(row, i, row[i] + 1), sent) < RowLeft(row, sent)
  {
    var row' := Mark(row, i, row[i] + 1);
    if i == 0 {
      assert row'[1..] == row[1..];
    } else {
      assert row'[0] == row[0] && row'[1..] == Mark(row[1..], i - 1, row[1..][i - 1] + 1);
      RowLeftDrops(row[1..], sent[1..], i - 1);
    }
  }

  function RowsLeft(rows: seq<seq<nat>>, sent: seq<seq<Update>>): nat
    requires forall k :: 0 <= k < |rows| ==> |rows[k]| == |sent|
  {
    if rows == [] then 0 else RowLeft(rows[0], sent) + RowsLeft(rows[1..], sent)
  }

  lemma {:induction false} RowsLeftDrops(rows: seq<seq<nat>>, sent: seq<seq<Update>>, k: nat, row: seq<nat>)
    requires forall m :: 0 <= m < |rows| ==> |rows[m]| == |sent|
    requires k < |rows| && |row| == |sent| && RowLeft(row, sent) < RowLeft(rows[k], sent)
    ensures RowsLeft(rows[k := row], sent) < RowsLeft(rows, sent)
  {
    if k == 0 {
      assert rows[k := row][1..] == rows[1..];
    } else {
      assert rows[k := row][0] == rows[0] && rows[k := row][1..] == rows[1..][k - 1 := row];
      RowsLeftDrops(rows[1..], sent, k - 1, row);
    }
  }

  lemma HearingDrains(s: Net, k: nat, i: nat, s': Net)
    requires Inv(s) && Enabled(s, Receive(k, i)) && s' == Next(s, Receive(k, i))
    ensures Inv(s') && s'.sent == s.sent && |s'.trees| == |s.trees|
    ensures RowsLeft(s'.got, s'.sent) < RowsLeft(s.got, s.sent)
    ensures forall m: nat :: m < |s.trees| && Done(s, m) ==> Done(s', m) && s'.trees[m] == s.trees[m]
  {
    InvStep(s, Receive(k, i));
    RowLeftDrops(s.got[k], s.sent, i);
    RowsLeftDrops(s.got, s.sent, k, Mark(s.got[k], i, s.got[k][i] + 1));
    forall m: nat | m < |s.trees| && Done(s, m) ensures Done(s', m) && s'.trees[m] == s.trees[m] {
      assert m != k;
    }
  }

  lemma SomethingToHear(s: Net) returns (k: nat, i: nat)
    requires Inv(s) && !Quiet(s)
    ensures Enabled(s, Receive(k, i))
  {
    k, i :| k < |s.trees| && i < |s.trees| && s.got[k][i] != |s.sent[i]|;
    assert NodeInv(s.trees[k], s.sent, s.got[k], s.origin, s.applied[k], k);
  }

  /**
   * The network can run dry without further operations, which changes nothing for nodes that have received
   * everything.
   */
  lemma {:induction false} Drain(s0: Net, es: seq<Event>, s: Net) returns (es': seq<Event>, s': Net)
    requires Sized(s0) && Execution(s0, es, s) && Inv(s)
    ensures Sized(s') && Execution(s0, es', s') && Quiet(s') && s'.sent == s.sent && |s'.trees| == |s.trees|
    ensures forall m: nat :: m < |s.trees| && Done(s, m) ==> s'.trees[m] == s.trees[m]
    decreases RowsLeft(s.got, s.sent)
  {
    if Quiet(s) {
      es', s' := es, s;
    } else {
      var k, i := SomethingToHear(s);
      var es1, s1 := Extend(s0, es, s, Receive(k, i));
      HearingDrains(s, k, i, s1);
      es', s' := Drain(s0, es1, s1);
    }
  }

  // --- Races ------------------------------------------------------------------------------------------------

  /** Node `i` has sent `u`, node `j` has sent `w`, and no node anything else. */
  ghost predicate JustSent(s: Net, n: nat, i: nat, j: nat, u: Update, w: Update) {
    && i < n && j < n && |s.sent| == n && s.sent[i] == [u] && s.sent[j] == [w]
    && forall m :: 0 <= m < n && m != i && m != j ==> s.sent[m] == []
  }

  /** Nothing has happened yet. */
  ghost predicate Untouched(s: Net, n: nat, t: Tree) {
    && Sized(s) && |s.trees| == n
    && (forall m :: 0 <= m < n ==> s.trees[m] == t && s.sent[m] == [])
    && (forall k, m :: 0 <= k < n && 0 <= m < n ==> s.got[k][m] == 0)
  }

  /** Node `k` has received nothing. */
  ghost predicate Unheard(s: Net, k: nat)
    requires Sized(s) && k < |s.trees|
  {
    forall m :: 0 <= m < |s.trees| ==> s.got[k][m] == if k == m then |s.sent[m]| else 0
  }

  lemma BothActed(s0: Net, n: nat, t: Tree, i: nat, j: nat, u: Update, w: Update, s1: Net, s2: Net)
    requires Untouched(s0, n, t) && i < n && j < n && i != j
    requires Acted(s0, i, u, s1) && Acted(s1, j, w, s2)
    ensures JustSent(s2, n, i, j, u, w) && |s2.trees| == n && Unheard(s2, i) && Unheard(s2, j)
    ensures s2.trees[i] == Apply(t, u) && s2.trees[j] == Apply(t, w)
  {
  }

  lemma FirstHeard(s: Net, n: nat, i: nat, j: nat, u: Update, w: Update, s1: Net)
    requires Sized(s) && |s.trees| == n && i != j && JustSent(s, n, i, j, u, w) && Unheard(s, i) && Unheard(s, j)
    requires Heard(s, i, j, s1)
    ensures JustSent(s1, n, i, j, u, w) && |s1.trees| == n
    ensures s1.trees[i] == Apply(s.trees[i], w) && s1.trees[j] == s.trees[j]
    ensures Done(s1, i) && Unheard(s1, j)
  {
  }

  lemma SecondHeard(s: Net, n: nat, i: nat, j: nat, u: Update, w: Update, s1: Net)
    requires Sized(s) && |s.trees| == n && i != j && JustSent(s, n, i, j, u, w) && Done(s, i) && Unheard(s, j)
    requires Heard(s, j, i, s1)
    ensures JustSent(s1, n, i, j, u, w) && |s1.trees| == n
    ensures s1.trees[j] == Apply(s.trees[j], u) && s1.trees[i] == s.trees[i]
    ensures Done(s1, i) && Done(s1, j)
  {
  }

  /** Two nodes act at the same time ... */
  lemma BothAct(s0: Net, n: nat, t: Tree, i: nat, j: nat, u: Update, w: Update) returns (es: seq<Event>, s: Net)
    requires Untouched(s0, n, t) && i < n && j < n && i != j
    requires u.PutKey? && w.PutKey? && Fires(t, u) && Fires(t, w)
    ensures Execution(s0, es, s) && Sized(s) && |s.trees| == n && JustSent(s, n, i, j, u, w)
    ensures Unheard(s, i) && Unheard(s, j)
    ensures s.trees[i] == Apply(t, u) && s.trees[j] == Apply(t, w)
  {
    var es1, s1 := Act(s0, [], s0, i, u);
    es, s := Act(s0, es1, s1, j, w);
    BothActed(s0, n, t, i, j, u, w, s1, s);
  }

  /** ... and then one hears of the other ... */
  lemma OneHears(s0: Net, es0: seq<Event>, s: Net, n: nat, i: nat, j: nat, u: Update, w: Update)
      returns (es: seq<Event>, s': Net)
    requires Sized(s0) && Execution(s0, es0, s) && Sized(s) && |s.trees| == n
    requires i != j && JustSent(s, n, i, j, u, w) && Unheard(s, i) && Unheard(s, j)
    ensures Execution(s0, es, s') && Sized(s') && |s'.trees| == n && JustSent(s', n, i, j, u, w)
    ensures s'.trees[i] == Apply(s.trees[i], w) && s'.trees[j] == s.trees[j]
    ensures Done(s', i) && Unheard(s', j)
  {
    es, s' := Hear(s0, es0, s, i, j);
    FirstHeard(s, n, i, j, u, w, s');
  }

  /** ... and the other way round. */
  lemma OtherHears(s0: Net, es0: seq<Event>, s: Net, n: nat, i: nat, j: nat, u: Update, w: Update)
      returns (es: seq<Event>, s': Net)
    requires Sized(s0) && Execution(s0, es0, s) && Sized(s) && |s.trees| == n
    requires i != j && JustSent(s, n, i, j, u, w) && Done(s, i) && Unheard(s, j)
    ensures Execution(s0, es, s') && Sized(s') && |s'.trees| == n && JustSent(s', n, i, j, u, w)
    ensures s'.trees[i] == s.trees[i] && s'.trees[j] == Apply(s.trees[j], u)
    ensures Done(s', i) && Done(s', j)
  {
    es, s' := Hear(s0, es0, s, j, i);
    SecondHeard(s, n, i, j, u, w, s');
  }

  lemma PutsRace(s0: Net, n: nat, t: Tree, i: nat, j: nat, u: Update, w: Update) returns (es: seq<Event>, s: Net)
    requires Untouched(s0, n, t) && i < n && j < n && i != j
    requires u.PutKey? && w.PutKey? && Fires(t, u) && Fires(t, w)
    ensures Execution(s0, es, s) && Sized(s) && |s.trees| == n && JustSent(s, n, i, j, u, w)
    ensures s.trees[i] == Apply(Apply(t, u), w) && s.trees[j] == Apply(Apply(t, w), u)
    ensures Done(s, i) && Done(s, j)
  {
    var es1, s1 := BothAct(s0, n, t, i, j, u, w);
    var es2, s2 := OneHears(s0, es1, s1, n, i, j, u, w);
    es, s := OtherHears(s0, es2, s2, n, i, j, u, w);
  }

  lemma HeardThenActed(s0: Net, n: nat, t: Tree, i: nat, j: nat, u: Update, w: Update, s1: Net, s2: Net, s3: Net)
    requires Untouched(s0, n, t) && i < n && j < n && i != j
    requires Acted(s0, j, w, s1) && Enabled(s1, Receive(i, j)) && Heard(s1, i, j, s2) && Acted(s2, i, u, s3)
    ensures JustSent(s3, n, i, j, u, w) && |s3.trees| == n
    ensures s3.trees[i] == Apply(Apply(t, w), u) && Done(s3, i)
    ensures forall k: nat :: k < n && k != i && k != j ==> s3.trees[k] == t && Unheard(s3, k)
  {
  }

  /** A node puts after it has heard of a deletion ... */
  lemma HearThenAct(s0: Net, n: nat, t: Tree, i: nat, j: nat, u: Update, w: Update)
      returns (es: seq<Event>, s: Net)
    requires Untouched(s0, n, t) && i < n && j < n && i != j
    requires u.PutKey? && IsDelete(w) && Fires(Apply(t, w), u)
    ensures Execution(s0, es, s) && Sized(s) && |s.trees| == n && JustSent(s, n, i, j, u, w)
    ensures s.trees[i] == Apply(Apply(t, w), u) && Done(s, i)
    ensures forall k: nat :: k < n && k != i && k != j ==> s.trees[k] == t && Unheard(s, k)
  {
    var es1, s1 := Act(s0, [], s0, j, w);
    var es2, s2 := Hear(s0, es1, s1, i, j);
    es, s := Act(s0, es2, s2, i, u);
    HeardThenActed(s0, n, t, i, j, u, w, s1, s2, s);
  }

  /** Node `k` has heard of node `i` and of nobody else. */
  ghost predicate HeardOnly(s: Net, k: nat, i: nat)
    requires Sized(s) && k < |s.trees|
  {
    forall m :: 0 <= m < |s.trees| ==> s.got[k][m] == if m == k || m == i then |s.sent[m]| else 0
  }

  /** ... and a third node hears of the put first ... */
  lemma ThirdHearsPut(s0: Net, es0: seq<Event>, s: Net, n: nat, i: nat, j: nat, k: nat, u: Update, w: Update)
      returns (es: seq<Event>, s': Net)
    requires Sized(s0) && Execution(s0, es0, s) && Sized(s) && |s.trees| == n && k < n && k != i && k != j
    requires i != j && JustSent(s, n, i, j, u, w) && Done(s, i) && Unheard(s, k)
    ensures Execution(s0, es, s') && Sized(s') && |s'.trees| == n && JustSent(s', n, i, j, u, w)
    ensures s'.trees[i] == s.trees[i] && s'.trees[k] == Apply(s.trees[k], u)
    ensures Done(s', i) && HeardOnly(s', k, i)
  {
    es, s' := Hear(s0, es0, s, k, i);
  }

  /** ... and then of the deletion. */
  lemma ThirdHearsDeletion(s0: Net, es0: seq<Event>, s: Net, n: nat, i: nat, j: nat, k: nat, u: Update, w: Update)
      returns (es: seq<Event>, s': Net)
    requires Sized(s0) && Execution(s0, es0, s) && Sized(s) && |s.trees| == n && k < n && k != i && k != j
    requires i != j && JustSent(s, n, i, j, u, w) && Done(s, i) && HeardOnly(s, k, i)
    ensures Execution(s0, es, s') && Sized(s') && |s'.trees| == n && JustSent(s', n, i, j, u, w)
    ensures s'.trees[i] == s.trees[i] && s'.trees[k] == Apply(s.trees[k], w)
    ensures Done(s', i) && Done(s', k)
  {
    es, s' := Hear(s0, es0, s, k, j);
  }

  lemma DeletionRace(s0: Net, n: nat, t: Tree, i: nat, j: nat, k: nat, u: Update, w: Update)
      returns (es: seq<Event>, s: Net)
    requires Untouched(s0, n, t) && i < n && j < n && k < n && i != j && k != i && k != j
    requires u.PutKey? && IsDelete(w) && Fires(Apply(t, w), u)
    ensures Execution(s0, es, s) && Sized(s) && |s.trees| == n && JustSent(s, n, i, j, u, w)
    ensures s.trees[i] == Apply(Apply(t, w), u) && s.trees[k] == Apply(Apply(t, u), w)
    ensures Done(s, i) && Done(s, k)
  {
    var es1, s1 := HearThenAct(s0, n, t, i, j, u, w);
    var es2, s2 := ThirdHearsPut(s0, es1, s1, n, i, j, k, u, w);
    es, s := ThirdHearsDeletion(s0, es2, s2, n, i, j, k, u, w);
  }

  // --- Exactness --------------------------------------------------------------------------------------------

  /** From a state in which two nodes have received everything, the network runs dry without changing them. */
  lemma RunDry(n: nat, t: Tree, es0: seq<Event>, s0: Net, k: nat, l: nat) returns (es: seq<Event>, s: Net)
    requires Execution(Start(n, t), es0, s0) && Sized(s0) && |s0.trees| == n
    requires k < n && l < n && Done(s0, k) && Done(s0, l)
    ensures Execution(Start(n, t), es, s) && Sized(s) && Quiet(s) && s.sent == s0.sent
    ensures |s.trees| == n && s.trees[k] == s0.trees[k] && s.trees[l] == s0.trees[l]
  {
    StartInv(n, t);
    InvAlways(Start(n, t), es0, s0);
    es, s := Drain(Start(n, t), es0, s0);
  }

  /** Two nodes that put at the same time differ for good, if the order of the puts matters to the tree. */
  lemma RacingPutsDiverge(n: nat, t: Tree, i: nat, j: nat, u: Update, w: Update) returns (es: seq<Event>, s: Net)
    requires i < n && j < n && i != j && u.PutKey? && w.PutKey? && Fires(t, u) && Fires(t, w)
    requires Apply(Apply(t, u), w) != Apply(Apply(t, w), u)
    ensures Execution(Start(n, t), es, s) && Sized(s) && Quiet(s) && |s.trees| == n
    ensures JustSent(s, n, i, j, u, w) && s.trees[i] != s.trees[j]
  {
    var es1, s1 := PutsRace(Start(n, t), n, t, i, j, u, w);
    es, s := RunDry(n, t, es1, s1, i, j);
  }

  /** So do, on every tree that takes the path, two nodes that put different objects on it. */
  lemma CrossedPutsDiverge(n: nat, t: Tree, i: nat, j: nat, key: string, a: KVObject, b: KVObject)
      returns (es: seq<Event>, s: Net)
    requires i < n && j < n && i != j && PutOk(t, Components(key)) && a != b
    ensures Execution(Start(n, t), es, s) && Sized(s) && Quiet(s) && |s.trees| == n && s.trees[i] != s.trees[j]
  {
    var ua, ub := PutKey(key, a), PutKey(key, b);
    PutCanBeRepeated(t, ua);
    PutCanBeRepeated(t, ub);
    LookApply(Apply(t, ua), ub, Components(key));
    LookApply(Apply(t, ub), ua, Components(key));
    es, s := RacingPutsDiverge(n, t, i, j, ua, ub);
  }

  /** A put that follows a deletion can reach a third node before it. */
  lemma OvertakenDeletionDiverges(n: nat, i: nat, j: nat, k: nat, u: Update, w: Update)
      returns (es: seq<Event>, s: Net)
    requires i < n && j < n && k < n && i != j && k != i && k != j
    requires u.PutKey? && Possible(u) && IsDelete(w) && Target(w) <= Target(u)
    ensures Execution(Start(n, Prey(w, u.value)), es, s) && Sized(s) && Quiet(s) && |s.trees| == n
    ensures JustSent(s, n, i, j, u, w) && s.trees[i] != s.trees[k]
  {
    var t := Prey(w, u.value);
    DeletionMakesRoom(u, w);
    PutAndDeleteDiverge(u, w);
    var es1, s1 := DeletionRace(Start(n, t), n, t, i, j, k, u, w);
    es, s := RunDry(n, t, es1, s1, i, k);
  }

  /**
   * Whatever the first tree and whatever the network does, if one node sent `u`, another one `w` and nobody anything
   * else, then all nodes hold one tree once nothing is on its way any more.
   */
  ghost predicate PairAgrees(n: nat, i: nat, j: nat, u: Update, w: Update) {
    forall t, es, s, k: nat, l: nat ::
      WellFormed(t) && Execution(Start(n, t), es, s) && Sized(s) && Quiet(s) && JustSent(s, n, i, j, u, w)
      && |s.trees| == n && k < n && l < n
      ==> s.trees[k] == s.trees[l]
  }

  lemma PutsBreakPair(n: nat, i: nat, j: nat, u: Update, w: Update)
    requires i < n && j < n && i != j && u != w && Possible(u) && Possible(w)
    requires u.PutKey? && w.PutKey? && Comparable(Target(u), Target(w))
    ensures !PairAgrees(n, i, j, u, w)
  {
    EmptyIsWellFormed();
    PutIntoEmptyFires(u);
    PutIntoEmptyFires(w);
    if Target(u) <= Target(w) { PutsDiverge(u, w); } else { PutsDiverge(w, u); }
    var es, s := RacingPutsDiverge(n, EMPTY, i, j, u, w);
    assert s.trees[i] != s.trees[j];
  }

  lemma DeletionBreaksPair(n: nat, i: nat, j: nat, u: Update, w: Update)
    requires n >= 3 && i < n && j < n && i != j
    requires u.PutKey? && Possible(u) && IsDelete(w) && Target(w) <= Target(u)
    ensures !PairAgrees(n, i, j, u, w) && !PairAgrees(n, j, i, w, u)
  {
    var k := if i != 0 && j != 0 then 0 else if i != 1 && j != 1 then 1 else 2;
    forall c | c in Target(w) ensures c != "" { assert c in Target(u); }
    PreyIsWellFormed(w, u.value);
    var es, s := OvertakenDeletionDiverges(n, i, j, k, u, w);
    assert s.trees[i] != s.trees[k] && JustSent(s, n, j, i, w, u);
  }

  lemma ConflictBreaksPair(n: nat, i: nat, j: nat, u: Update, w: Update)
    requires n >= 3 && i < n && j < n && i != j && Possible(u) && Possible(w) && Conflict(u, w)
    ensures !PairAgrees(n, i, j, u, w)
  {
    if u.PutKey? && w.PutKey? {
      PutsBreakPair(n, i, j, u, w);
    } else if u.PutKey? {
      DeletionBreaksPair(n, i, j, u, w);
    } else {
      DeletionBreaksPair(n, j, i, w, u);
    }
  }

  lemma HarmlessPair(s: Net, n: nat, i: nat, j: nat, u: Update, w: Update)
    requires JustSent(s, n, i, j, u, w) && i != j && !Conflict(u, w)
    ensures OneWriterPerConflict(s.sent)
  {
    forall k, l, x, y | 0 <= k < n && 0 <= l < n && k != l && x in s.sent[k] && y in s.sent[l]
      ensures !Conflict(x, y)
    {
      assert (k == i && x == u && l == j && y == w) || (k == j && x == w && l == i && y == u);
    }
  }

  /** Two updates of different nodes are harmless if and only if they do not conflict. */
  lemma PairIsExact(n: nat, i: nat, j: nat, u: Update, w: Update)
    requires n >= 3 && i < n && j < n && i != j && Possible(u) && Possible(w)
    ensures PairAgrees(n, i, j, u, w) <==> !Conflict(u, w)
  {
    if Conflict(u, w) {
      ConflictBreaksPair(n, i, j, u, w);
    } else {
      forall t, es, s, k: nat, l: nat |
          WellFormed(t) && Execution(Start(n, t), es, s) && Sized(s) && Quiet(s) && JustSent(s, n, i, j, u, w)
          && |s.trees| == n && k < n && l < n
        ensures s.trees[k] == s.trees[l]
      {
        HarmlessPair(s, n, i, j, u, w);
        QuietNodesAgree(n, t, es, s, k, l);
      }
    }
  }

  lemma CompatibleAgree(policy: Policy, t: Tree, es: seq<Event>, s: Net, k: nat, l: nat)
    requires Compatible(policy) && Execution(Start(|policy|, t), es, s) && Sized(s) && Quiet(s) && Obeys(s, policy)
    requires k < |policy| && l < |policy|
    ensures s.trees[k] == s.trees[l]
  {
    SentPossibleAlways(Start(|policy|, t), es, s);
    QuietNodesAgree(|policy|, t, es, s, k, l);
  }

  /** What one pair breaks is broken for a policy that allows the pair. */
  lemma PolicyCoversPair(policy: Policy, i: nat, j: nat, u: Update, w: Update)
    requires AlwaysAgree(policy) && i < |policy| && j < |policy| && i != j && u in policy[i] && w in policy[j]
    ensures PairAgrees(|policy|, i, j, u, w)
  {
    forall t, es, s, k: nat, l: nat |
        WellFormed(t) && Execution(Start(|policy|, t), es, s) && Sized(s) && Quiet(s)
        && JustSent(s, |policy|, i, j, u, w) && |s.trees| == |policy| && k < |policy| && l < |policy|
      ensures s.trees[k] == s.trees[l]
    {
      assert Obeys(s, policy);
    }
  }

  /**
   * For three nodes or more: under a policy all runs end in agreement if and only if no two nodes may send updates
   * that conflict.
   */
  lemma AgreementIsExact(policy: Policy)
    requires |policy| >= 3
    ensures AlwaysAgree(policy) <==> Compatible(policy)
  {
    if Compatible(policy) {
      forall t, es, s, k: nat, l: nat |
          WellFormed(t) && Execution(Start(|policy|, t), es, s) && Sized(s) && Quiet(s) && Obeys(s, policy)
          && k < |policy| && l < |policy|
        ensures s.trees[k] == s.trees[l]
      {
        CompatibleAgree(policy, t, es, s, k, l);
      }
    } else if AlwaysAgree(policy) {
      var i, j, u, w :|
        0 <= i < |policy| && 0 <= j < |policy| && i != j && u in policy[i] && w in policy[j]
        && Possible(u) && Possible(w) && Conflict(u, w);
      PolicyCoversPair(policy, i, j, u, w);
      ConflictBreaksPair(|policy|, i, j, u, w);
    }
  }
}
