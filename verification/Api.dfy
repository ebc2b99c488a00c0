/**
 * The HTTP handlers on the store object: one per verb, the batch handler that runs many of them, its goroutines
 * taking their steps in any order, and the handlers for single paths.
 */
module Api {
  import opened Types
  import opened Paths
  import opened Tree
  import opened Updates
  import Cluster
  import opened Enumeration
  import opened FlatStore
  import opened Counting
  import opened Batch
  import opened Queries
  import opened BatchBroadcast
  import opened Rest
  import KV

  function StatusText(err: Status): string {
    match err
    case Ok => ""
    case Err(e) => Text(e)
  }

  function Replies(channel: seq<Answer>): (rs: seq<Query>)
    ensures |rs| == |channel|
    ensures forall k :: 0 <= k < |channel| ==> rs[k] == channel[k].reply
  {
    seq(|channel|, k requires 0 <= k < |channel| => channel[k].reply)
  }

  /**
   * The replies of a response answer the requests: position `k` holds the reply to request `ids[k]`, as some serial
   * order of the queries gives it.
   */
  ghost predicate Answers(t: Tree, rs: seq<Request>, order: seq<nat>, ids: seq<nat>, query: seq<Query>) {
    && |ids| == |query| == |rs| && Distinct(ids)
    && forall k :: 0 <= k < |query| ==> ids[k] < |rs| && Replied(t, rs, order, ids[k], query[k])
  }

  /** The keys and verbs of queries. */
  function KeysAndVerbs(qs: seq<Query>): (pairs: seq<(string, string)>)
    ensures |pairs| == |qs|
    ensures forall k :: 0 <= k < |qs| ==> pairs[k] == (qs[k].key, qs[k].verb)
  {
    seq(|qs|, k requires 0 <= k < |qs| => (qs[k].key, qs[k].verb))
  }

  function Requested(rs: seq<Request>): (qs: seq<Query>)
    ensures |qs| == |rs|
    ensures forall k :: 0 <= k < |rs| ==> qs[k] == rs[k].query
  {
    seq(|rs|, k requires 0 <= k < |rs| => rs[k].query)
  }

  /** What the channel holds when the wait loop leaves, in the order in which it was sent, answers the requests. */
  lemma ChannelAnswers(t: Tree, rs: seq<Request>, es: seq<Event>, s: State, query: seq<Query>)
    requires Execution(rs, Start(t, rs), es, s) && Finished(rs, s)
    requires |query| == |s.channel| && forall k :: 0 <= k < |query| ==> query[k] == s.channel[k].reply
    ensures Answers(t, rs, s.order, Ids(s.channel), query)
    ensures multiset(KeysAndVerbs(query)) == multiset(KeysAndVerbs(Requested(rs)))
    ensures (forall i: nat, j: nat :: i != j ==> !Overlap(rs, i, j)) ==>
              forall k :: 0 <= k < |query| ==>
                var r := rs[Ids(s.channel)[k]];
                query[k] == Reply(t, r.query, r.draw)
  {
    BatchIsSerializable(t, rs, es, s);
    RepliesAnswerRequests(t, rs, es, s);
    assert forall k :: 0 <= k < |query| ==> s.channel[k] in s.channel;
    assert KeysAndVerbs(query) == AnsweredFor(s.channel);
    assert KeysAndVerbs(Requested(rs)) == AskedFor(rs);
    if forall i: nat, j: nat :: i != j ==> !Overlap(rs, i, j) { RepliesAsAlone(t, rs, es, s); }
  }

  /** A goroutine that has a step of its own to take. */
  predicate Ready(job: Job) {
    job.Running? || job.Committed? || job.Announced?
  }

  /** What a step puts on the network. */
  function StepSends(s: State, e: Event): seq<Update>
    requires e.Announce? ==> e.id < |s.jobs| && s.jobs[e.id].Committed?
  {
    if e.Announce? then s.jobs[e.id].out else []
  }

  /** The sending side after all broadcasts of the batch so far. */
  ghost function WireSent(dev: bool, o: Cluster.Outbox, s: State): Cluster.Outbox {
    KV.SendAll(dev, o, Wire(s.outs, s.announced))
  }

  /** The network has what the batch's goroutines have broadcast, in their order. */
  lemma WireGrows(t: Tree, rs: seq<Request>, s: State, e: Event, dev: bool, o: Cluster.Outbox)
    requires Announcing(t, rs, s) && Due(rs, s, e)
    ensures WireSent(dev, o, Next(rs, s, e)) == KV.SendAll(dev, WireSent(dev, o, s), StepSends(s, e))
    ensures e.Announce? ==> |s.jobs[e.id].out| <= 1
  {
    var s' := Next(rs, s, e);
    if e.Announce? {
      WireAppend(s.outs, s.announced, e.id);
      assert OutOf(s.outs, e.id) == s.jobs[e.id].out;
    } else {
      WireOnly(s.outs, s'.outs, s.announced);
      assert Wire(s.outs, s.announced) + [] == Wire(s.outs, s.announced);
    }
    KV.OutgoingAppend(o, Wire(s.outs, s.announced), StepSends(s, e));
  }

  /** The laws of the request's verb, whichever it is. */
  lemma QueryByText(t: Tree, r: Request)
    requires t.Bucket?
    ensures Reads(r.query.verb, "get") ==>
              TreeAfter(t, r.query, r.draw) == t && Out(t, r.query, r.draw) == []
    ensures (Reads(r.query.verb, "put") || Reads(r.query.verb, "post")) && Stores(t, r.query, r.draw) ==>
              At(TreeAfter(t, r.query, r.draw), r.query.key) == Stored(NewObject(r))
              && Out(t, r.query, r.draw) == [PutKey(r.query.key, NewObject(r))]
    ensures Reads(r.query.verb, "delete") ==>
              !At(TreeAfter(t, r.query, r.draw), r.query.key).Stored?
              && Out(t, r.query, r.draw) == [DeleteKey(r.query.key)] && Reply(t, r.query, r.draw) == r.query
  {
    if Reads(r.query.verb, "get") { GetQuery(t, r.query, r.draw); }
    if Reads(r.query.verb, "put") || Reads(r.query.verb, "post") { PutQuery(t, r.query, r.draw); }
    if Reads(r.query.verb, "delete") { DeleteQuery(t, r.query, r.draw); }
  }

  class API {
    const kv: KV.KV

    constructor (kv: KV.KV)
      ensures this.kv == kv
    {
      this.kv := kv;
    }

    /** `clear` is the decrypted value, if decryption works; the reply does not depend on it. */
    method DoGET(query: Query, clear: Option<string>) returns (q: Query)
      requires kv.Valid() && VerbOf(query) == Get
      ensures forall d :: q == Reply(kv.root, query, d)
    {
      q := query;
      var obj := kv.GetObject(q.key);
      if obj.None? { return q.(error := Text(NoObject)); }
      var b := obj.value.data;
      if b == "" { return q.(error := "Key " + q.key + " does not exist"); }
      if q.secret {
        if clear.None? { q := q.(value := b); }
        q := q.(value := if clear.Some? then clear.value else "");
      }
      q := q.(value := b);
    }

    method DoPOST(query: Query, d: Draw) returns (q: Query)
      requires kv.Valid() && VerbOf(query) == Post
      modifies kv, kv.cluster
      ensures kv.Valid()
      ensures q == Reply(old(kv.root), query, d)
      ensures kv.root == TreeAfter(old(kv.root), query, d)
      ensures kv.Sending() == old(kv.SendingAfter(Out(kv.root, query, d)))
      ensures Stores(old(kv.root), query, d) ==>
                var data := if query.secret then d.sealed.value else query.value;
                var obj := KVObject(d.now, query.secret, data, [], d.plain);
                && q == query && At(kv.root, query.key) == Stored(obj)
                && kv.Sending() == old(kv.SendingAfter([PutKey(query.key, obj)]))
      ensures !Stores(old(kv.root), query, d) ==>
                q.error != "" && kv.root == old(kv.root) && kv.Sending() == old(kv.Sending())
    {
      VerbsByText(query);
      PutQuery(kv.root, query, d);
      q := query;
      var buf := q.value;
      if q.secret {
        if d.sealed.None? { return q.(error := "cannot encrypt"); }
        buf := d.sealed.value;
      }
      var err := kv.Put(q.key, buf, q.secret, d.now, d.plain, true);
      if err != Ok { return q.(error := StatusText(err)); }
    }

    method DoDELETE(query: Query, ghost d: Draw) returns (q: Query)
      requires kv.Valid() && VerbOf(query) == Delete
      modifies kv, kv.cluster
      ensures kv.Valid()
      ensures q == Reply(old(kv.root), query, d)
      ensures kv.root == TreeAfter(old(kv.root), query, d)
      ensures kv.Sending() == old(kv.SendingAfter(Out(kv.root, query, d)))
    {
      q := query;
      var err := kv.DeleteKey(q.key, true);
      if err != Ok { q := q.(error := StatusText(err)); }
    }

    /** What one goroutine does when nothing comes between its commit and its broadcast. */
    method RunQuery(r: Request, clear: Option<string>) returns (q: Query)
      requires kv.Valid() && VerbOf(r.query) != Invalid
      modifies kv, kv.cluster
      ensures kv.Valid()
      ensures q == Reply(old(kv.root), r.query, r.draw)
      ensures kv.root == TreeAfter(old(kv.root), r.query, r.draw)
      ensures kv.Sending() == old(kv.SendingAfter(Out(kv.root, r.query, r.draw)))
      ensures Reads(r.query.verb, "get") ==> kv.root == old(kv.root) && kv.Sending() == old(kv.Sending())
      ensures (Reads(r.query.verb, "put") || Reads(r.query.verb, "post")) && Stores(old(kv.root), r.query, r.draw) ==>
                At(kv.root, r.query.key) == Stored(NewObject(r))
                && kv.Sending() == old(kv.SendingAfter([PutKey(r.query.key, NewObject(r))]))
      ensures Reads(r.query.verb, "delete") ==>
                !At(kv.root, r.query.key).Stored? && q == r.query
                && kv.Sending() == old(kv.SendingAfter([DeleteKey(r.query.key)]))
    {
      QueryByText(kv.root, r);
      match VerbOf(r.query)
      case Get => q := DoGET(r.query, clear);
      case Post => q := DoPOST(r.query, r.draw);
      case Delete => q := DoDELETE(r.query, r.draw);
    }

    /** The part of it up to the commit. What is still to be broadcast is `out`. */
    method CommitQuery(r: Request, clear: Option<string>) returns (q: Query, out: seq<Update>)
      requires kv.Valid() && VerbOf(r.query) != Invalid
      modifies kv, kv.cluster
      ensures kv.Valid()
      ensures q == Reply(old(kv.root), r.query, r.draw) && out == Out(old(kv.root), r.query, r.draw)
      ensures kv.root == TreeAfter(old(kv.root), r.query, r.draw)
      ensures kv.Sending() == old(kv.Sending())
      ensures VerbOf(r.query) == Post && Stores(old(kv.root), r.query, r.draw) ==>
                At(kv.root, r.query.key) == Stored(NewObject(r)) && out == [PutKey(r.query.key, NewObject(r))]
      ensures Reads(r.query.verb, "get") ==> kv.root == old(kv.root) && out == []
      ensures Reads(r.query.verb, "delete") ==> !At(kv.root, r.query.key).Stored? && out == [DeleteKey(r.query.key)]
    {
      QueryByText(kv.root, r);
      VerbsByText(r.query);
      q, out := r.query, [];
      match VerbOf(r.query)
      case Get =>
        q := DoGET(r.query, clear);
      case Post =>
        var u := Write(r.query, r.draw);
        if u.None? { return q.(error := "cannot encrypt"), []; }
        var err := kv.PutObject(q.key, u.value.value, false);
        if err == Ok { out := [u.value]; } else { q := q.(error := StatusText(err)); }
      case Delete =>
        var _ := kv.DeleteKey(q.key, false);
        out := [DeleteKey(q.key)];
    }

    /** The rest of it: the broadcast. */
    method AnnounceQuery(out: seq<Update>)
      requires |out| <= 1
      modifies kv.cluster
      ensures kv.Sending() == old(kv.SendingAfter(out))
    {
      if out != [] {
        assert out == [out[0]];
        kv.EmitEvent(out[0]);
      }
    }

    /**
     * The batch handler. Its own loop starts the queries; between any two of its steps any goroutine may commit
     * its change, broadcast it, or put its reply on the channel. Whatever the schedule, what happens is a
     * complete execution `es` of the interleaving, ending in `s`.
     */
    method MultiQuery(rs: seq<Request>)
        returns (code: int, query: seq<Query>, queryErrors: bool, ghost es: seq<Event>, ghost s: State)
      requires kv.Valid()
      modifies kv, kv.cluster
      ensures kv.Valid()
      ensures Execution(rs, Start(old(kv.root), rs), es, s) && Finished(rs, s)
      ensures kv.root == s.tree
      ensures kv.Sending() == old(kv.SendingAfter(Wire(s.outs, s.announced)))
      ensures Answers(old(kv.root), rs, s.order, Ids(s.channel), query)
      ensures multiset(KeysAndVerbs(query)) == multiset(KeysAndVerbs(Requested(rs)))
      ensures (forall i: nat, j: nat :: i != j ==> !Overlap(rs, i, j)) ==>
                forall k :: 0 <= k < |query| ==>
                  var r := rs[Ids(s.channel)[k]];
                  query[k] == Reply(old(kv.root), r.query, r.draw)
      ensures queryErrors <==> exists r :: r in query && r.error != ""
      ensures code == if queryErrors then 400 else 200
    {
      var jobs: seq<Job> := seq(|rs|, _ => Unstarted);
      var next: nat, result: seq<Answer> := 0, [];
      ghost var t, dev, sending := kv.root, kv.cluster.dev, kv.Sending();
      es, s := [], Start(t, rs);
      StartAnnouncing(t, rs);
      while next < |rs| || |result| < |rs|
        invariant kv.Valid()
        invariant s == State(kv.root, jobs, next, result, s.order, s.outs, s.announced)
        invariant Reached(t, rs, es, s)
        invariant kv.Sending() == WireSent(dev, sending, s)
        decreases Left(jobs)
      {
        var e := Schedule(rs, jobs, next, t, s);
        Advance(t, rs, es, s, e);
        WireGrows(t, rs, s, e, dev, sending);
        ghost var after := Next(rs, s, e);
        jobs, next, result := Take(rs, jobs, next, result, e, s);
        es, s := es + [e], after;
      }
      query, queryErrors := Collect(Replies(result));
      ChannelAnswers(t, rs, es, s, query);
      code := if queryErrors then 400 else 200;
    }

    /** Takes one step from the state `s`. */
    method Take(rs: seq<Request>, jobs: seq<Job>, next: nat, result: seq<Answer>, e: Event, ghost s: State)
        returns (jobs': seq<Job>, next': nat, result': seq<Answer>)
      requires kv.Valid() && |jobs| == |rs|
      requires s == State(kv.root, jobs, next, result, s.order, s.outs, s.announced) && Due(rs, s, e)
      requires e.Commit? ==> VerbOf(rs[e.id].query) != Invalid
      requires e.Announce? ==> |jobs[e.id].out| <= 1
      modifies kv, kv.cluster
      ensures kv.Valid()
      ensures var s' := Next(rs, s, e);
              State(kv.root, jobs', next', result', s'.order, s'.outs, s'.announced) == s'
      ensures kv.Sending() == old(kv.SendingAfter(StepSends(s, e)))
    {
      jobs', next', result' := jobs, next, result;
      match e
      case Spawn =>
        var q := rs[next].query;
        if VerbOf(q) == Invalid {
          q := q.(error := "Verb " + q.verb + " is not a valid operation");
          jobs', result' := jobs[next := Sent], result + [Answer(next, q)];
        } else {
          jobs' := jobs[next := Running];
        }
        next' := next + 1;
      case Commit(id) =>
        var clear: Option<string> := *;
        var q, out := CommitQuery(rs[id], clear);
        jobs' := jobs[id := Committed(q, out)];
      case Announce(id) =>
        AnnounceQuery(jobs[id].out);
        jobs' := jobs[id := Announced(jobs[id].reply)];
      case Send(id) =>
        result' := result + [Answer(id, jobs[id].reply)];
        jobs' := jobs[id := Sent];
    }

    /** Picks any step that is due. */
    method Schedule(rs: seq<Request>, jobs: seq<Job>, next: nat, ghost t: Tree, ghost s: State) returns (e: Event)
      requires s == State(s.tree, jobs, next, s.channel, s.order, s.outs, s.announced)
      requires Inv(t, rs, s) && !Finished(rs, s)
      ensures Due(rs, s, e)
    {
      ghost var due := NotFinishedMoves(t, rs, s);
      var spawn: bool := *;
      if next < |rs| && spawn { return Spawn; }
      var ready := ReadyJobs(jobs);
      if ready == [] { return Spawn; }
      var k: nat :| k < |ready|;
      var id := ready[k];
      assert id in ready;
      match jobs[id]
      case Running => return Commit(id);
      case Committed(_, _) => return Announce(id);
      case Announced(_) => return Send(id);
    }

    method ReadyJobs(jobs: seq<Job>) returns (ready: seq<nat>)
      ensures forall i :: i in ready ==> i < |jobs| && Ready(jobs[i])
      ensures ready == [] ==> forall i :: 0 <= i < |jobs| ==> !Ready(jobs[i])
    {
      ready := [];
      for id := 0 to |jobs|
        invariant forall i :: i in ready ==> i < |jobs| && Ready(jobs[i])
        invariant ready == [] ==> forall i :: 0 <= i < id ==> !Ready(jobs[i])
      {
        if Ready(jobs[id]) { ready := ready + [id]; }
      }
    }

    /** A put on a single path, with its HTTP status. There is no `body` if it could not be read. */
    method KvPutHandler(path: string, body: Option<string>, secret: bool, d: Draw) returns (code: int)
      requires kv.Valid()
      modifies kv, kv.cluster
      ensures kv.Valid()
      ensures code == 400 <==> body.None? || (secret && d.sealed.None?)
      ensures code == 200 || code == 400 || code == 500
      ensures body.None? ==> kv.root == old(kv.root) && kv.Sending() == old(kv.Sending())
      ensures body.Some? ==>
                var q := Query(path, "POST", body.value, secret, "");
                && kv.root == TreeAfter(old(kv.root), q, d)
                && kv.Sending() == old(kv.SendingAfter(Out(kv.root, q, d)))
      ensures code == 200 <==>
                body.Some? && PutOk(old(kv.root), Components(path)) && (secret ==> d.sealed.Some?)
      ensures code == 200 ==>
                var obj := KVObject(d.now, secret, if secret then d.sealed.value else body.value, [], d.plain);
                && kv.root == Apply(old(kv.root), PutKey(path, obj)) && At(kv.root, path) == Stored(obj)
                && kv.Sending() == old(kv.SendingAfter([PutKey(path, obj)]))
      ensures code != 200 ==> kv.root == old(kv.root) && kv.Sending() == old(kv.Sending())
    {
      assert Upper("POST") == "POST" && Reads("POST", "post");
      if body.Some? { PutQuery(kv.root, Query(path, "POST", body.value, secret, ""), d); }
      if body.None? { return 400; }
      var buf := body.value;
      if secret {
        if d.sealed.None? { return 400; }
        buf := d.sealed.value;
      }
      var err := kv.Put(path, buf, secret, d.now, d.plain, true);
      code := if err == Ok then 200 else 500;
    }

    /** A deletion on a single path: whatever there is or is not at the path, the answer is success. */
    method KvDeleteHandler(path: string) returns (code: int)
      requires kv.Valid()
      modifies kv, kv.cluster
      ensures kv.Valid()
      ensures kv.root == AfterDelete(old(kv.root), path)
      ensures code == 200
      ensures kv.Sending() == old(kv.SendingAfter(
                (if EndsInSlash(path) then [DeleteBucket(path)] else []) + [DeleteKey(path)]))
    {
      if EndsInSlash(path) {
        KV.OutgoingAppend(kv.Sending(), [DeleteBucket(path)], [DeleteKey(path)]);
        var err := kv.DeleteBucket(path, true);
        if err != Ok { return if err == Err(BucketNotFound) then 404 else 500; }
      } else {
        assert [] + [DeleteKey(path)] == [DeleteKey(path)];
      }
      var err := kv.DeleteKey(path, true);
      code := if err == Ok then 200 else 500;
    }
  }
}
