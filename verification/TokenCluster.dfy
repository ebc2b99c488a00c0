/** Token stores on many nodes that replace one another's contents by broadcast. */
module TokenCluster {
  import opened Types
  import opened Tokens

  // --- Any number of issuers, any network -------------------------------------------------------------------

  /** `flight` holds every snapshot ever broadcast: delivery may be late, repeated, out of order, or never. */
  datatype State = State(nodes: map<string, TokenMap>, flight: set<TokenMap>)

  datatype Event =
    | Join(node: string)
    | Issue(node: string, id: string, user: string, kind: string, issuer: string, expires: bool, base: int, now: int)
    | Deliver(node: string, snapshot: TokenMap)
    | Remove(node: string, ids: set<string>)
    | DeleteMissing(node: string, id: string)

  predicate Enabled(s: State, e: Event) {
    match e
    case Join(node) => node !in s.nodes
    case Issue(node, _, _, _, _, _, base, now) => node in s.nodes && base <= now
    case Deliver(node, snapshot) => node in s.nodes && snapshot in s.flight
    case Remove(node, _) => node in s.nodes
    case DeleteMissing(node, id) => node in s.nodes && id !in s.nodes[node]
  }

  function Issued(e: Event): Token
    requires e.Issue?
  {
    NewToken(e.id, e.user, e.kind, e.issuer, e.expires, e.base, e.now)
  }

  function Next(s: State, e: Event): State
    requires Enabled(s, e)
  {
    match e
    case Join(node) => s.(nodes := s.nodes[node := map[]])
    case Issue(node, id, _, _, _, _, _, _) =>
      var store := s.nodes[node][id := Issued(e)];
      State(s.nodes[node := store], s.flight + {store})
    case Deliver(node, snapshot) => s.(nodes := s.nodes[node := snapshot])
    case Remove(node, ids) => s.(nodes := s.nodes[node := s.nodes[node] - ids])
    case DeleteMissing(node, _) => s.(flight := s.flight + {s.nodes[node]})
  }

  predicate Execution(s: State, es: seq<Event>, s': State)
    decreases |es|
  {
    if es == [] then s == s' else Enabled(s, es[0]) && Execution(Next(s, es[0]), es[1..], s')
  }

  ghost predicate Founded(store: TokenMap, issued: iset<Token>) {
    forall id :: id in store ==> store[id].token == id && store[id] in issued
  }

  ghost predicate Inv(s: State, issued: iset<Token>) {
    && (forall n :: n in s.nodes ==> Founded(s.nodes[n], issued))
    && (forall snapshot :: snapshot in s.flight ==> Founded(snapshot, issued))
  }

  ghost function IssuedBy(es: seq<Event>): iset<Token> {
    iset i | 0 <= i < |es| && es[i].Issue? :: Issued(es[i])
  }

  lemma InvStep(s: State, e: Event, issued: iset<Token>)
    requires Inv(s, issued) && Enabled(s, e)
    ensures Inv(Next(s, e), issued + IssuedBy([e]))
  {
    var all := issued + IssuedBy([e]);
    forall store: TokenMap | Founded(store, issued) ensures Founded(store, all) { }
    if e.Issue? {
      assert [e][0] == e && Issued(e) in IssuedBy([e]);
      assert Founded(s.nodes[e.node][e.id := Issued(e)], all);
    }
  }

  lemma IssuedByCons(es: seq<Event>, tok: Token)
    requires es != []
    ensures tok in IssuedBy(es) <==> tok in IssuedBy([es[0]]) || tok in IssuedBy(es[1..])
  {
    if i :| 0 <= i < |es| && es[i].Issue? && Issued(es[i]) == tok {
      if i == 0 { assert [es[0]][0] == es[i]; } else { assert es[1..][i - 1] == es[i]; }
    }
    if tok in IssuedBy([es[0]]) { assert [es[0]][0] == es[0]; }
    if i :| 0 <= i < |es[1..]| && es[1..][i].Issue? && Issued(es[1..][i]) == tok { assert es[i + 1] == es[1..][i]; }
  }

  lemma {:induction false} InvAlways(s: State, es: seq<Event>, s': State, issued: iset<Token>)
    requires Inv(s, issued) && Execution(s, es, s')
    ensures Inv(s', issued + IssuedBy(es))
    decreases |es|
  {
    if es == [] {
      assert issued + IssuedBy(es) == issued;
    } else {
      InvStep(s, es[0], issued);
      InvAlways(Next(s, es[0]), es[1..], s', issued + IssuedBy([es[0]]));
      forall tok ensures tok in IssuedBy(es) <==> tok in IssuedBy([es[0]]) || tok in IssuedBy(es[1..]) {
        IssuedByCons(es, tok);
      }
      assert issued + IssuedBy([es[0]]) + IssuedBy(es[1..]) == issued + IssuedBy(es);
    }
  }

  /**
   * Token provenance. Starting from empty stores, a validation that succeeds anywhere, at any time, is backed
   * by an earlier issue of that very token to that user and kind, and falls into its lifetime.
   */
  lemma ValidTokensWereIssued(s: State, es: seq<Event>, node: string,
                              kind: string, uid: string, tid: string, t1: int, t2: int) returns (i: nat)
    requires Execution(State(map[], {}), es, s) && node in s.nodes
    requires t1 <= t2 && ValidAt(s.nodes[node], kind, uid, tid, t1, t2)
    ensures i < |es| && es[i].Issue? && es[i].id == tid && es[i].user == uid && es[i].kind == kind
    ensures es[i].now <= t1 <= t2 < es[i].base + (if es[i].expires then 60 * MINUTE else 87600 * HOUR)
  {
    InvAlways(State(map[], {}), es, s, iset{});
    var tok := s.nodes[node][tid];
    assert Founded(s.nodes[node], iset{} + IssuedBy(es));
    i :| 0 <= i < |es| && es[i].Issue? && Issued(es[i]) == tok;
  }

  /** An event by which a node may lose a token, or get another one under its id. */
  predicate Touches(e: Event, node: string, tok: Token) {
    match e
    case Issue(n, id, _, _, _, _, _, _) => n == node && id == tok.token
    case Deliver(n, snapshot) => n == node && !(tok.token in snapshot && snapshot[tok.token] == tok)
    case Remove(n, ids) => n == node && tok.token in ids
    case _ => false
  }

  /** An event other than an issue takes a token from a node exactly when it touches it. */
  lemma TouchedTokensAreLost(s: State, e: Event, node: string, tok: Token)
    requires Enabled(s, e) && !e.Issue? && node in s.nodes
    requires tok.token in s.nodes[node] && s.nodes[node][tok.token] == tok
    ensures var store := Next(s, e).nodes[node];
            Touches(e, node, tok) <==> !(tok.token in store && store[tok.token] == tok)
  {
  }

  /** A node that joins starts with an empty store and can issue at once. */
  lemma JoinedNodesCanIssue(s: State, e: Event) returns (s': State)
    requires e.Issue? && e.node !in s.nodes && e.base <= e.now
    ensures Execution(s, [Join(e.node), e], s')
    ensures s'.nodes == s.nodes[e.node := map[e.id := Issued(e)]]
  {
    var es := [Join(e.node), e];
    var s1 := Next(s, es[0]);
    s' := Next(s1, e);
    assert es[1..] == [e] && es[1..][1..] == [];
    assert Execution(s', [], s');
    assert Execution(s1, es[1..], s');
  }

  lemma {:induction false} UntouchedTokenStays(s: State, es: seq<Event>, s': State, node: string, tok: Token)
    requires Execution(s, es, s') && node in s.nodes
    requires tok.token in s.nodes[node] && s.nodes[node][tok.token] == tok
    requires forall e :: e in es ==> !Touches(e, node, tok)
    ensures node in s'.nodes && tok.token in s'.nodes[node] && s'.nodes[node][tok.token] == tok
    decreases |es|
  {
    if es != [] {
      assert es[0] in es;
      UntouchedTokenStays(Next(s, es[0]), es[1..], s', node, tok);
    }
  }

  /**
   * An issued token is valid at its issuer from its issue until an hour after, or ten years of 365 days if it is not to
   * expire, for its user and kind and nobody else, unless the node removes it or installs a store without it.
   */
  lemma IssuedTokensAreValid(s: State, e: Event, es: seq<Event>, s': State, kind: string, uid: string, t1: int, t2: int)
    requires e.Issue? && Enabled(s, e) && Execution(Next(s, e), es, s')
    requires forall f :: f in es ==> !Touches(f, e.node, Issued(e))
    ensures e.node in s'.nodes && e.id in s'.nodes[e.node] && s'.nodes[e.node][e.id].issuedBy == e.issuer
    ensures ValidAt(s'.nodes[e.node], kind, uid, e.id, t1, t2) <==>
            && kind == e.kind && uid == e.user && e.now <= t1
            && t2 < e.base + if e.expires then 3_600_000_000_000 else 315_360_000_000_000_000
  {
    UntouchedTokenStays(Next(s, e), es, s', e.node, Issued(e));
  }

  lemma {:induction false} FlightOnlyGrows(s: State, es: seq<Event>, s': State)
    requires Execution(s, es, s')
    ensures s.flight <= s'.flight && forall n :: n in s.nodes ==> n in s'.nodes
    decreases |es|
  {
    if es != [] { FlightOnlyGrows(Next(s, es[0]), es[1..], s'); }
  }

  /** What a node broadcasts is its whole store, which can replace that of any node at any later time. */
  lemma BroadcastsCanReachOthers(s: State, e: Event, es: seq<Event>, s': State, node: string)
    requires (e.Issue? || e.DeleteMissing?) && Enabled(s, e) && Execution(Next(s, e), es, s') && node in s'.nodes
    ensures var store := if e.Issue? then s.nodes[e.node][e.id := Issued(e)] else s.nodes[e.node];
            Enabled(s', Deliver(node, store)) && Next(s', Deliver(node, store)).nodes[node] == store
  {
    FlightOnlyGrows(Next(s, e), es, s');
  }

  lemma {:induction false} AbsentTokenStays(s: State, es: seq<Event>, s': State, node: string, id: string)
    requires Execution(s, es, s') && node in s.nodes && id !in s.nodes[node]
    requires forall e :: e in es && (e.Issue? || e.Deliver?) && e.node == node ==>
               if e.Issue? then e.id != id else id !in e.snapshot
    ensures node in s'.nodes && id !in s'.nodes[node]
    decreases |es|
  {
    if es != [] {
      assert es[0] in es;
      AbsentTokenStays(Next(s, es[0]), es[1..], s', node, id);
    }
  }

  /** A removed token is not valid there again unless it is issued anew or comes back in another node's store. */
  lemma RemovedTokensAreInvalid(s: State, node: string, ids: set<string>, es: seq<Event>, s': State,
                                kind: string, uid: string, tid: string, t1: int, t2: int)
    requires node in s.nodes && tid in ids && Execution(Next(s, Remove(node, ids)), es, s')
    requires forall e :: e in es && (e.Issue? || e.Deliver?) && e.node == node ==>
               if e.Issue? then e.id != tid else tid !in e.snapshot
    ensures node in s'.nodes && !ValidAt(s'.nodes[node], kind, uid, tid, t1, t2)
  {
    AbsentTokenStays(Next(s, Remove(node, ids)), es, s', node, tid);
  }

  // --- One issuer, ordered links ----------------------------------------------------------------------------

  /** `seen` and `swept` are history variables: the last snapshot installed, and what was removed since. */
  datatype Peer = Peer(store: TokenMap, pending: seq<TokenMap>, seen: Option<int>, swept: set<string>)

  /** `sent` lists the issuer's snapshots in the order of its broadcasts. */
  datatype Solo = Solo(issuer: TokenMap, sent: seq<TokenMap>, peers: map<string, Peer>)

  datatype SoloEvent =
    | SoloIssue(id: string, tok: Token)
    | SoloResend
    | IssuerSweep(ids: set<string>)
    | PeerJoin(peer: string)
    | PeerHandle(peer: string)
    | PeerSweep(peer: string, ids: set<string>)

  predicate SoloEnabled(s: Solo, e: SoloEvent) {
    match e
    case PeerJoin(p) => p !in s.peers
    case PeerHandle(p) => p in s.peers && s.peers[p].pending != []
    case PeerSweep(p, _) => p in s.peers
    case _ => true
  }

  function Receiving(peers: map<string, Peer>, p: string, store: TokenMap): Peer
    requires p in peers
  {
    peers[p].(pending := peers[p].pending + [store])
  }

  /** The whole store goes to every peer's link. */
  function Broadcast(s: Solo, store: TokenMap): Solo {
    Solo(store, s.sent + [store],
         map p | p in s.peers :: Receiving(s.peers, p, store))
  }

  ghost function SoloNext(s: Solo, e: SoloEvent): Solo
    requires SoloEnabled(s, e)
  {
    match e
    case SoloIssue(id, tok) => Broadcast(s, s.issuer[id := tok])
    case SoloResend => Broadcast(s, s.issuer)
    case IssuerSweep(ids) => s.(issuer := s.issuer - ids)
    case PeerJoin(p) => s.(peers := s.peers[p := Peer(map[], [], None, {})])
    case PeerHandle(p) =>
      var q := s.peers[p];
      s.(peers := s.peers[p := Peer(q.pending[0], q.pending[1..], Some(|s.sent| - |q.pending|), {})])
    case PeerSweep(p, ids) =>
      var q := s.peers[p];
      s.(peers := s.peers[p := q.(store := q.store - ids, swept := q.swept + ids)])
  }

  ghost predicate SoloExecution(s: Solo, es: seq<SoloEvent>, s': Solo)
    decreases |es|
  {
    if es == [] then s == s' else SoloEnabled(s, es[0]) && SoloExecution(SoloNext(s, es[0]), es[1..], s')
  }

  /** The peer is empty or holds the snapshot it saw last, minus its own sweeps; later snapshots are on their way. */
  predicate PeerInv(sent: seq<TokenMap>, p: Peer) {
    && |p.pending| <= |sent| && p.pending == sent[|sent| - |p.pending|..]
    && match p.seen
       case None => p.store == map[]
       case Some(k) => 0 <= k < |sent| && |p.pending| == |sent| - (k + 1) && p.store == sent[k] - p.swept
  }

  /** The issuer's own store only shrinks between broadcasts. */
  ghost predicate SoloInv(s: Solo) {
    && (s.sent == [] ==> s.issuer == map[])
    && (s.sent != [] ==> forall id :: id in s.issuer ==>
          id in s.sent[|s.sent| - 1] && s.issuer[id] == s.sent[|s.sent| - 1][id])
    && forall p :: p in s.peers ==> PeerInv(s.sent, s.peers[p])
  }

  lemma BroadcastKeepsPeer(sent: seq<TokenMap>, p: Peer, store: TokenMap)
    requires PeerInv(sent, p)
    ensures PeerInv(sent + [store], p.(pending := p.pending + [store]))
  {
    assert (sent + [store])[|sent| - |p.pending|..] == sent[|sent| - |p.pending|..] + [store];
  }

  lemma BroadcastKeepsInv(s: Solo, store: TokenMap)
    requires SoloInv(s)
    ensures SoloInv(Broadcast(s, store))
  {
    var s' := Broadcast(s, store);
    forall p | p in s'.peers ensures PeerInv(s'.sent, s'.peers[p]) {
      BroadcastKeepsPeer(s.sent, s.peers[p], store);
    }
  }

  lemma SweepingKeepsPeer(sent: seq<TokenMap>, p: Peer, ids: set<string>)
    requires PeerInv(sent, p)
    ensures PeerInv(sent, p.(store := p.store - ids, swept := p.swept + ids))
  {
    if p.seen.Some? {
      assert sent[p.seen.value] - p.swept - ids == sent[p.seen.value] - (p.swept + ids);
    }
  }

  lemma HandlingKeepsPeer(s: Solo, p: string)
    requires SoloEnabled(s, PeerHandle(p)) && PeerInv(s.sent, s.peers[p])
    ensures PeerInv(s.sent, SoloNext(s, PeerHandle(p)).peers[p])
  {
    var q := s.peers[p];
    var k := |s.sent| - |q.pending|;
    assert q.pending[0] == s.sent[k];
    assert s.sent[k] - {} == s.sent[k];
    assert q.pending[1..] == s.sent[k + 1..];
  }

  lemma OnePeerChanges(s: Solo, p: string, q: Peer)
    requires SoloInv(s) && PeerInv(s.sent, q)
    ensures SoloInv(s.(peers := s.peers[p := q]))
  {
  }

  lemma SoloStep(s: Solo, e: SoloEvent)
    requires SoloInv(s) && SoloEnabled(s, e)
    ensures SoloInv(SoloNext(s, e))
  {
    match e
    case SoloIssue(id, tok) => BroadcastKeepsInv(s, s.issuer[id := tok]);
    case SoloResend => BroadcastKeepsInv(s, s.issuer);
    case IssuerSweep(ids) =>
    case PeerJoin(p) =>
      assert s.sent[|s.sent|..] == [];
      OnePeerChanges(s, p, SoloNext(s, e).peers[p]);
    case PeerHandle(p) =>
      HandlingKeepsPeer(s, p);
      OnePeerChanges(s, p, SoloNext(s, e).peers[p]);
    case PeerSweep(p, ids) =>
      SweepingKeepsPeer(s.sent, s.peers[p], ids);
      OnePeerChanges(s, p, SoloNext(s, e).peers[p]);
  }

  lemma {:induction false} SoloInvAlways(s: Solo, es: seq<SoloEvent>, s': Solo)
    requires SoloInv(s) && SoloExecution(s, es, s')
    ensures SoloInv(s')
    decreases |es|
  {
    if es != [] {
      SoloStep(s, es[0]);
      SoloInvAlways(SoloNext(s, es[0]), es[1..], s');
    }
  }

  /**
   * Single-issuer replication: in every state of every run each peer's store is empty or one of the issuer's
   * broadcast snapshots minus the peer's own sweeps since, and exactly the later snapshots are still to come.
   */
  lemma PeersHoldSnapshots(es: seq<SoloEvent>, s: Solo, p: string)
    requires SoloExecution(Solo(map[], [], map[]), es, s) && p in s.peers
    ensures var q := s.peers[p];
            match q.seen
            case None => q.store == map[]
            case Some(k) => 0 <= k < |s.sent| && q.store == s.sent[k] - q.swept && q.pending == s.sent[k + 1..]
  {
    SoloInvAlways(Solo(map[], [], map[]), es, s);
  }

  /** A peer never goes back to an earlier snapshot. */
  lemma {:induction false} SnapshotsComeInOrder(s: Solo, es: seq<SoloEvent>, s': Solo, p: string)
    requires SoloInv(s) && SoloExecution(s, es, s')
    requires p in s.peers && s.peers[p].seen.Some?
    ensures p in s'.peers && s'.peers[p].seen.Some? && s.peers[p].seen.value <= s'.peers[p].seen.value
    decreases |es|
  {
    if es != [] {
      SoloStep(s, es[0]);
      SnapshotsComeInOrder(SoloNext(s, es[0]), es[1..], s', p);
    }
  }

  /** Once a peer has caught up, it knows every token the issuer still holds, save those it swept itself. */
  lemma CaughtUpPeersKnowLiveTokens(es: seq<SoloEvent>, s: Solo, p: string, id: string)
    requires SoloExecution(Solo(map[], [], map[]), es, s)
    requires p in s.peers && s.peers[p].pending == [] && s.peers[p].seen.Some?
    requires id in s.issuer && id !in s.peers[p].swept
    ensures id in s.peers[p].store && s.peers[p].store[id] == s.issuer[id]
  {
    SoloInvAlways(Solo(map[], [], map[]), es, s);
    assert PeerInv(s.sent, s.peers[p]);
  }

  /** The events at the peers. */
  predicate AtPeers(es: seq<SoloEvent>) {
    forall e :: e in es ==> e.PeerHandle? || e.PeerSweep?
  }

  lemma {:induction false} PeersLeaveIssuerAlone(s: Solo, es: seq<SoloEvent>, s': Solo)
    requires SoloExecution(s, es, s') && AtPeers(es)
    ensures s'.issuer == s.issuer && s'.sent == s.sent && forall p :: p in s.peers ==> p in s'.peers
    decreases |es|
  {
    if es != [] {
      assert es[0] in es;
      PeersLeaveIssuerAlone(SoloNext(s, es[0]), es[1..], s');
    }
  }

  /** A peer that has a snapshot to come, or has seen one, does not go back to having none. */
  lemma {:induction false} PeerKeepsSnapshot(s: Solo, es: seq<SoloEvent>, s': Solo, p: string)
    requires SoloExecution(s, es, s') && AtPeers(es)
    requires p in s.peers && (s.peers[p].pending != [] || s.peers[p].seen.Some?)
    ensures p in s'.peers && (s'.peers[p].pending != [] || s'.peers[p].seen.Some?)
    decreases |es|
  {
    if es != [] {
      assert es[0] in es;
      PeerKeepsSnapshot(SoloNext(s, es[0]), es[1..], s', p);
    }
  }

  lemma DrainedPeerHoldsLast(sent: seq<TokenMap>, p: Peer)
    requires PeerInv(sent, p) && p.pending == [] && p.seen.Some?
    ensures sent != [] && p.store == sent[|sent| - 1] - p.swept
  {
  }

  /** A broadcast is the issuer's store and is on its way to every peer. */
  lemma BroadcastIsSent(s: Solo, e: SoloEvent, p: string)
    requires (e.SoloIssue? || e.SoloResend?) && p in s.peers
    ensures var s', store := SoloNext(s, e), if e.SoloIssue? then s.issuer[e.id := e.tok] else s.issuer;
            && s'.issuer == store && s'.sent == s.sent + [store]
            && p in s'.peers && s'.peers[p].pending == s.peers[p].pending + [store]
  {
  }

  /** Once the peers have worked off a broadcast they hold the issuer's very store, save what they swept themselves. */
  lemma BroadcastsReachPeers(es0: seq<SoloEvent>, s: Solo, e: SoloEvent, es: seq<SoloEvent>, s': Solo, p: string)
    requires SoloExecution(Solo(map[], [], map[]), es0, s)
    requires (e.SoloIssue? || e.SoloResend?) && SoloExecution(SoloNext(s, e), es, s') && AtPeers(es)
    requires p in s.peers && p in s'.peers && s'.peers[p].pending == []
    ensures s'.issuer == if e.SoloIssue? then s.issuer[e.id := e.tok] else s.issuer
    ensures s'.peers[p].store == s'.issuer - s'.peers[p].swept
  {
    SoloInvAlways(Solo(map[], [], map[]), es0, s);
    SoloStep(s, e);
    BroadcastIsSent(s, e, p);
    SoloInvAlways(SoloNext(s, e), es, s');
    PeersLeaveIssuerAlone(SoloNext(s, e), es, s');
    PeerKeepsSnapshot(SoloNext(s, e), es, s', p);
    DrainedPeerHoldsLast(s'.sent, s'.peers[p]);
  }
}
