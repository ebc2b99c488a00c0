/** Sending to the other nodes: epochs, fan-out, and what a run of calls puts on the network. */
module Cluster {
  import opened Types

  /** Epochs are 64-bit and wrap around. */
  const EPOCHS: nat := 0x1_0000_0000_0000_0000

  /** The sending side of a node: its epoch, the peers it knows, and all it has handed to the network so far. */
  datatype Outbox = Outbox(addr: string, epoch: nat, peers: seq<string>, wire: seq<Packet>)

  function Fanout(peers: seq<string>, msg: Message): seq<Packet> {
    seq(|peers|, i requires 0 <= i < |peers| => Packet(peers[i], msg))
  }

  function NextMessage(o: Outbox, typ: string, data: Payload, dataType: string): Message {
    Message((o.epoch + 1) % EPOCHS, typ, o.addr, data, dataType)
  }

  function AfterEmit(o: Outbox, typ: string, data: Payload, dataType: string): Outbox {
    o.(epoch := (o.epoch + 1) % EPOCHS, wire := o.wire + Fanout(o.peers, NextMessage(o, typ, data, dataType)))
  }

  /** A sync or shared-key message borrows the next epoch without taking it. */
  function AfterSync(o: Outbox, to: string, data: Payload, dataType: string): Outbox {
    o.(wire := o.wire + [Packet(to, NextMessage(o, "sync", data, dataType))])
  }

  /** The goroutines that answer sync messages. */
  datatype SyncHandler = SyncResponse | SendSharedKey | HandleSharedKey

  /** The packet at position `i` of a fan-out. */
  lemma FanoutAt(peers: seq<string>, msg: Message, i: nat)
    requires i < |peers|
    ensures |Fanout(peers, msg)| == |peers|
    ensures Fanout(peers, msg)[i].to == peers[i] && Fanout(peers, msg)[i].msg == msg
  {
  }

  /**
   * From `o` to `o'` one message was broadcast: one packet for each peer in turn, all with the next epoch and the
   * sender's address.
   */
  predicate Broadcasted(o: Outbox, o': Outbox, typ: string, data: Payload, dataType: string) {
    && o'.addr == o.addr && o'.peers == o.peers && o'.epoch == (o.epoch + 1) % 0x1_0000_0000_0000_0000
    && |o'.wire| == |o.wire| + |o.peers| && o.wire <= o'.wire
    && forall i :: 0 <= i < |o.peers| ==>
         o'.wire[|o.wire| + i] == Packet(o.peers[i], Message(o'.epoch, typ, o.addr, data, dataType))
  }

  /** What `AfterEmit` describes is a broadcast, position by position. */
  lemma AfterEmitBroadcasts(o: Outbox, typ: string, data: Payload, dataType: string)
    ensures Broadcasted(o, AfterEmit(o, typ, data, dataType), typ, data, dataType)
  {
    forall i: nat | i < |o.peers|
      ensures AfterEmit(o, typ, data, dataType).wire[|o.wire| + i].to == o.peers[i]
    {
      FanoutAt(o.peers, NextMessage(o, typ, data, dataType), i);
    }
  }

  class Cluster {
    const dev: bool
    const addr: string
    var epoch: nat
    var peers: seq<string>
    var wire: seq<Packet>
    var updates: seq<Message>
    var tokens: seq<Message>

    constructor (dev: bool, addr: string)
      ensures Sending() == Outbox(addr, 0, [], []) && this.dev == dev && updates == [] && tokens == []
    {
      this.dev, this.addr, epoch, peers, wire := dev, addr, 0, [], [];
      updates, tokens := [], [];
    }

    function Sending(): Outbox
      reads this
    {
      Outbox(addr, epoch, peers, wire)
    }

    /** Sends one copy of a message to every peer known at the moment; does nothing in development mode. */
    method Emit(typ: string, data: Payload, dataType: string)
      modifies this`epoch, this`wire
      ensures Sending() == if dev then old(Sending()) else AfterEmit(old(Sending()), typ, data, dataType)
      ensures if dev then Sending() == old(Sending()) else Broadcasted(old(Sending()), Sending(), typ, data, dataType)
    {
      if dev { return; }
      var msg := Message((epoch + 1) % EPOCHS, typ, addr, data, dataType);
      ghost var before := wire;
      var i := 0;
      while i < |peers|
        invariant 0 <= i <= |peers| && epoch == old(epoch)
        invariant wire == before + Fanout(peers, msg)[..i]
      {
        wire := wire + [Packet(peers[i], msg)];
        i := i + 1;
      }
      assert Fanout(peers, msg)[..|peers|] == Fanout(peers, msg);
      epoch := (epoch + 1) % EPOCHS;
    }

    /** The sending part of the sync request, the shared-key request and the shared-key reply. */
    method SendSync(to: string, data: Payload, dataType: string)
      modifies this`wire
      ensures Sending() == if dev then old(Sending()) else AfterSync(old(Sending()), to, data, dataType)
      ensures wire == old(wire) + if dev then [] else
                [Packet(to, Message((epoch + 1) % 0x1_0000_0000_0000_0000, "sync", addr, data, dataType))]
    {
      if dev { return; }
      wire := wire + [Packet(to, Message((epoch + 1) % EPOCHS, "sync", addr, data, dataType))];
    }

    /**
     * Puts an arriving message on the queue for its type, or starts the handler for its kind of sync message.
     */
    method Receive(msg: Message) returns (started: Option<SyncHandler>)
      modifies this`updates, this`tokens
      ensures updates == old(updates) + (if !dev && msg.typ == "update" then [msg] else [])
      ensures tokens == old(tokens) + (if !dev && msg.typ == "token" then [msg] else [])
      ensures started == Some(SyncResponse) <==> !dev && msg.typ == "sync" && msg.dataType == "sync:request"
      ensures started == Some(SendSharedKey) <==> !dev && msg.typ == "sync" && msg.dataType == "sync:sharedkey"
      ensures started == Some(HandleSharedKey) <==> !dev && msg.typ == "sync" && msg.dataType == "sync:sendsharedkey"
    {
      started := None;
      if dev { return; }
      match msg.typ
      case "update" => updates := updates + [msg];
      case "sync" =>
        if msg.dataType == "sync:request" { started := Some(SyncResponse); }
        if msg.dataType == "sync:sharedkey" { started := Some(SendSharedKey); }
        if msg.dataType == "sync:sendsharedkey" { started := Some(HandleSharedKey); }
      case "token" => tokens := tokens + [msg];
      case _ =>
    }
  }

  // --- Emission accounting ----------------------------------------------------------------------------------

  datatype Call =
    | Emit(typ: string, data: Payload, dataType: string)
    | Sync(to: string, data: Payload, dataType: string)
    | Discover(peers: seq<string>)

  function After(o: Outbox, c: Call): Outbox {
    match c
    case Emit(typ, data, dataType) => AfterEmit(o, typ, data, dataType)
    case Sync(to, data, dataType) => AfterSync(o, to, data, dataType)
    case Discover(peers) => o.(peers := peers)
  }

  function AfterAll(o: Outbox, cs: seq<Call>): Outbox
    decreases |cs|
  {
    if cs == [] then o else AfterAll(After(o, cs[0]), cs[1..])
  }

  /** An emission goes to exactly the peers discovered last. */
  lemma DiscoveredPeersHear(o: Outbox, peers: seq<string>, typ: string, data: Payload, dataType: string)
    ensures Broadcasted(o.(peers := peers), AfterAll(o, [Discover(peers), Emit(typ, data, dataType)]),
                        typ, data, dataType)
  {
    var cs := [Discover(peers), Emit(typ, data, dataType)];
    var o1 := After(o, cs[0]);
    assert cs[1..] == [cs[1]] && cs[1..][1..] == [];
    assert AfterAll(o1, cs[1..]) == AfterAll(After(o1, cs[1]), []);
    AfterEmitBroadcasts(o1, typ, data, dataType);
  }

  /** An emission: the peers known at the moment and the message. */
  datatype Emission = Emission(peers: seq<string>, msg: Message)

  function Emissions(o: Outbox, cs: seq<Call>): seq<Emission>
    decreases |cs|
  {
    if cs == [] then []
    else
      var c := cs[0];
      (if c.Emit? then [Emission(o.peers, NextMessage(o, c.typ, c.data, c.dataType))] else [])
      + Emissions(After(o, c), cs[1..])
  }

  function Copies(es: seq<Emission>): seq<Packet> {
    if es == [] then [] else Fanout(es[0].peers, es[0].msg) + Copies(es[1..])
  }

  /** What is on the network, sync messages aside. */
  function Broadcasts(wire: seq<Packet>): seq<Packet> {
    if wire == [] then []
    else if wire[0].msg.typ == "sync" then Broadcasts(wire[1..])
    else [wire[0]] + Broadcasts(wire[1..])
  }

  /** `Emit` is called for updates and tokens only. */
  predicate NoSyncEmits(cs: seq<Call>) {
    forall i :: 0 <= i < |cs| && cs[i].Emit? ==> cs[i].typ != "sync"
  }

  lemma {:induction false} BroadcastsAppend(a: seq<Packet>, b: seq<Packet>)
    ensures Broadcasts(a + b) == Broadcasts(a) + Broadcasts(b)
  {
    if a == [] {
      assert a + b == b;
    } else {
      assert (a + b)[0] == a[0] && (a + b)[1..] == a[1..] + b;
      BroadcastsAppend(a[1..], b);
      var ba, bb := Broadcasts(a[1..]), Broadcasts(b);
      assert [a[0]] + (ba + bb) == ([a[0]] + ba) + bb;
    }
  }

  lemma {:induction false} BroadcastsOfCopies(ps: seq<Packet>)
    requires forall p :: p in ps ==> p.msg.typ != "sync"
    ensures Broadcasts(ps) == ps
  {
    if ps != [] {
      assert ps[0] in ps;
      BroadcastsOfCopies(ps[1..]);
    }
  }

  /** The epoch `n` steps after `epoch`. */
  function Wrap(epoch: nat, n: nat): nat {
    (epoch + n) % EPOCHS
  }

  /** The messages carry the epochs that follow `epoch`, one after the other. */
  predicate Numbered(es: seq<Emission>, epoch: nat) {
    forall k :: 0 <= k < |es| ==> es[k].msg.epoch == Wrap(epoch, k + 1)
  }

  lemma WrapTwice(epoch: nat, n: nat)
    ensures Wrap(Wrap(epoch, 1), n) == Wrap(epoch, n + 1)
  {
    var a := epoch + 1;
    assert a + n == a / EPOCHS * EPOCHS + (a % EPOCHS + n);
  }

  lemma NumberedCons(es: seq<Emission>, epoch: nat)
    requires es != [] && es[0].msg.epoch == Wrap(epoch, 1) && Numbered(es[1..], Wrap(epoch, 1))
    ensures Numbered(es, epoch)
  {
    forall k | 0 <= k < |es| ensures es[k].msg.epoch == Wrap(epoch, k + 1) {
      if k > 0 {
        assert es[k] == es[1..][k - 1];
        WrapTwice(epoch, k);
      }
    }
  }

  /**
   * Emission accounting: over any run of calls the emitted messages are numbered without gaps from the epoch
   * before the run on, whatever sync messages go out in between.
   */
  lemma {:induction false} EpochsHaveNoGaps(o: Outbox, cs: seq<Call>)
    requires o.epoch < EPOCHS
    ensures Numbered(Emissions(o, cs), o.epoch)
    ensures AfterAll(o, cs).epoch == Wrap(o.epoch, |Emissions(o, cs)|)
    decreases |cs|
  {
    if cs != [] {
      var c, o' := cs[0], After(o, cs[0]);
      var es, rest := Emissions(o, cs), Emissions(o', cs[1..]);
      EpochsHaveNoGaps(o', cs[1..]);
      if c.Emit? {
        assert es == [es[0]] + rest;
        NumberedCons(es, o.epoch);
        WrapTwice(o.epoch, |rest|);
      } else {
        assert es == rest;
      }
    }
  }

  lemma CopiesCons(e: Emission, rest: seq<Emission>)
    ensures Copies([e] + rest) == Fanout(e.peers, e.msg) + Copies(rest)
  {
    assert ([e] + rest)[1..] == rest;
  }

  lemma EmitIsBroadcast(o: Outbox, c: Call, e: Emission)
    requires c.Emit? && c.typ != "sync" && e == Emission(o.peers, NextMessage(o, c.typ, c.data, c.dataType))
    ensures Broadcasts(After(o, c).wire) == Broadcasts(o.wire) + Fanout(e.peers, e.msg)
  {
    BroadcastsAppend(o.wire, Fanout(e.peers, e.msg));
    BroadcastsOfCopies(Fanout(e.peers, e.msg));
  }

  lemma SyncIsNoBroadcast(o: Outbox, c: Call)
    requires c.Sync?
    ensures Broadcasts(After(o, c).wire) == Broadcasts(o.wire)
  {
    var p := Packet(c.to, NextMessage(o, "sync", c.data, c.dataType));
    BroadcastsAppend(o.wire, [p]);
    assert Broadcasts([p]) == [];
  }

  /** How often `p` occurs among the packets. */
  function Count(ps: seq<Packet>, p: Packet): nat {
    multiset(ps)[p]
  }

  /** How many of the emissions of `msg` the peer at this address was known for, counted as often as it was known. */
  function Expected(es: seq<Emission>, to: string, msg: Message): nat {
    if es == [] then 0
    else (if es[0].msg == msg then multiset(es[0].peers)[to] else 0) + Expected(es[1..], to, msg)
  }

  lemma {:induction false} CountFanout(peers: seq<string>, msg: Message, p: Packet)
    ensures Count(Fanout(peers, msg), p) == if p.msg == msg then multiset(peers)[p.to] else 0
  {
    if peers != [] {
      assert peers == [peers[0]] + peers[1..];
      assert Fanout(peers, msg) == [Packet(peers[0], msg)] + Fanout(peers[1..], msg);
      CountFanout(peers[1..], msg, p);
    }
  }

  lemma {:induction false} CountCopies(es: seq<Emission>, p: Packet)
    ensures Count(Copies(es), p) == Expected(es, p.to, p.msg)
  {
    if es != [] {
      CountFanout(es[0].peers, es[0].msg, p);
      CountCopies(es[1..], p);
    }
  }

  /** The network gets a copy of each emitted message for each peer known at that moment, in order. */
  lemma {:induction false} CopiesInOrder(o: Outbox, cs: seq<Call>)
    requires NoSyncEmits(cs)
    ensures Broadcasts(AfterAll(o, cs).wire) == Broadcasts(o.wire) + Copies(Emissions(o, cs))
    decreases |cs|
  {
    if cs != [] {
      var c, o' := cs[0], After(o, cs[0]);
      var rest := Emissions(o', cs[1..]);
      CopiesInOrder(o', cs[1..]);
      if c.Emit? {
        var e := Emission(o.peers, NextMessage(o, c.typ, c.data, c.dataType));
        EmitIsBroadcast(o, c, e);
        CopiesCons(e, rest);
        assert Emissions(o, cs) == [e] + rest;
        assert (Broadcasts(o.wire) + Fanout(e.peers, e.msg)) + Copies(rest)
            == Broadcasts(o.wire) + (Fanout(e.peers, e.msg) + Copies(rest));
      } else {
        assert Emissions(o, cs) == rest;
        if c.Sync? { SyncIsNoBroadcast(o, c); }
      }
    }
  }

  /**
   * Over every run of calls the network gets, for each address and each message emitted, as many copies as the address
   * occurs among the peers known at that moment.
   */
  lemma OneCopyPerPeer(o: Outbox, cs: seq<Call>, to: string, msg: Message)
    requires NoSyncEmits(cs)
    ensures Count(Broadcasts(AfterAll(o, cs).wire), Packet(to, msg))
            == Count(Broadcasts(o.wire), Packet(to, msg)) + Expected(Emissions(o, cs), to, msg)
  {
    CopiesInOrder(o, cs);
    CountCopies(Emissions(o, cs), Packet(to, msg));
  }
}
