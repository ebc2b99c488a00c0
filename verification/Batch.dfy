/**
 * The batch query executor: one goroutine per query, each with a single store operation, replying on a
 * channel with room for all replies, while the handler waits for the channel to fill.
 */
module Batch {
  import opened Types
  import opened Paths
  import opened Tree
  import opened Updates
  import opened Replay
  import opened Convergence
  import opened Traces
  import opened Counting

  datatype Query = Query(key: string, verb: string, value: string, secret: bool, error: string)

  /** What a query draws from its surroundings: the time, the sealed value if sealing works, the JSON check. */
  datatype Draw = Draw(now: int, sealed: Option<string>, plain: bool)

  datatype Verb = Get | Post | Delete | Invalid

  function Upper(s: string): string {
    seq(|s|, i requires 0 <= i < |s| => if 'a' <= s[i] <= 'z' then s[i] - 'a' + 'A' else s[i])
  }

  function VerbOf(q: Query): Verb {
    var v := Upper(q.verb);
    if v == "GET" then Get else if v == "PUT" || v == "POST" then Post else if v == "DELETE" then Delete else Invalid
  }

  function Text(e: Error): (s: string)
    ensures s != ""
  {
    match e
    case BucketNameRequired => "bucket name required"
    case KeyRequired => "key required"
    case IncompatibleValue => "incompatible value"
    case BucketMissing(name) => "Bucket " + name + " does not exist"
    case BucketNotFound => "bucket not found"
    case NoObject => "unexpected end of JSON input"
    case NoToken => "Token does not exist"
  }

  /** The update a query makes to the store, if any. */
  function Write(q: Query, d: Draw): Option<Update> {
    match VerbOf(q)
    case Post =>
      if q.secret then
        if d.sealed.None? then None
        else Some(PutKey(q.key, KVObject(d.now, q.secret, d.sealed.value, [], d.plain)))
      else Some(PutKey(q.key, KVObject(d.now, q.secret, q.value, [], d.plain)))
    case Delete => Some(DeleteKey(q.key))
    case _ => None
  }

  ghost function TreeAfter(t: Tree, q: Query, d: Draw): Tree {
    var u := Write(q, d);
    if u.Some? then Apply(t, u.value) else t
  }

  /**
   * A query's reply. A get of a secret returns the stored text whether or not it could be decrypted, an empty
   * value counts as missing, and a delete never reports an error.
   */
  function Reply(t: Tree, q: Query, d: Draw): Query {
    match VerbOf(q)
    case Get =>
      var e := Look(t, Components(q.key));
      if !e.Stored? then q.(error := Text(NoObject))
      else if e.obj.data == "" then q.(error := "Key " + q.key + " does not exist")
      else q.(value := e.obj.data)
    case Post =>
      if q.secret && d.sealed.None? then q.(error := "cannot encrypt")
      else
        var st := PutStatus(t, Components(q.key));
        if st.Err? then q.(error := Text(st.error)) else q
    case Delete => q
    case Invalid => q.(error := "Verb " + q.verb + " is not a valid operation")
  }

  // --- The interleaving -------------------------------------------------------------------------------------

  datatype Request = Request(query: Query, draw: Draw)

  /** The write of a query of the batch, if any. */
  function Written(rs: seq<Request>, id: nat): (u: Option<Update>)
    ensures u.Some? ==> id < |rs| && (u.value.PutKey? || u.value.DeleteKey?) && VerbOf(rs[id].query) != Invalid
  {
    if id < |rs| then Write(rs[id].query, rs[id].draw) else None
  }

  /** A goroutine commits its change to the store, then broadcasts it, then sends its reply. */
  datatype Job = Unstarted | Running | Committed(reply: Query, out: seq<Update>) | Announced(reply: Query) | Sent

  datatype Answer = Answer(id: nat, reply: Query)

  /**
   * The last three are history variables: the queries in the order of their commits, what each of them has to
   * broadcast, and the queries in the order of their broadcasts.
   */
  datatype State = State(
    tree: Tree, jobs: seq<Job>, next: nat, channel: seq<Answer>,
    order: seq<nat>, outs: map<nat, seq<Update>>, announced: seq<nat>)

  datatype Event = Spawn | Commit(id: nat) | Announce(id: nat) | Send(id: nat)

  function Start(t: Tree, rs: seq<Request>): State {
    State(t, seq(|rs|, _ => Unstarted), 0, [], [], map[], [])
  }

  /** What a query has to broadcast: a put that went through, and any deletion. */
  ghost function Out(t: Tree, q: Query, d: Draw): (out: seq<Update>)
    ensures Run(t, out) == TreeAfter(t, q, d)
    ensures out == [] || (Write(q, d).Some? && out == [Write(q, d).value])
  {
    var u := Write(q, d);
    if u.None? then []
    else
      assert [u.value][1..] == [];
      assert Run(t, [u.value]) == Run(Apply(t, u.value), []);
      Emitted(t, u.value)
  }

  /** Whether a step is due, apart from there being room on the channel. */
  predicate Due(rs: seq<Request>, s: State, e: Event)
    requires |s.jobs| == |rs|
  {
    match e
    case Spawn => s.next < |rs|
    case Commit(id) => id < |rs| && s.jobs[id] == Running
    case Announce(id) => id < |rs| && s.jobs[id].Committed?
    case Send(id) => id < |rs| && s.jobs[id].Announced?
  }

  /** Whether a step puts a reply on the channel: sends do, and so does the handler for an unknown verb. */
  predicate Sends(rs: seq<Request>, s: State, e: Event)
    requires |s.jobs| == |rs| && Due(rs, s, e)
  {
    e.Send? || (e.Spawn? && VerbOf(rs[s.next].query) == Invalid)
  }

  predicate Enabled(rs: seq<Request>, s: State, e: Event)
    requires |s.jobs| == |rs|
  {
    Due(rs, s, e) && (Sends(rs, s, e) ==> |s.channel| < |rs|)
  }

  ghost function Next(rs: seq<Request>, s: State, e: Event): (s': State)
    requires |s.jobs| == |rs| && Due(rs, s, e)
    ensures |s'.jobs| == |rs|
  {
    match e
    case Spawn =>
      var r := rs[s.next];
      if VerbOf(r.query) == Invalid then
        s.(jobs := s.jobs[s.next := Sent], next := s.next + 1,
           channel := s.channel + [Answer(s.next, Reply(s.tree, r.query, r.draw))])
      else
        s.(jobs := s.jobs[s.next := Running], next := s.next + 1)
    case Commit(id) =>
      var r := rs[id];
      var out := Out(s.tree, r.query, r.draw);
      s.(tree := TreeAfter(s.tree, r.query, r.draw), order := s.order + [id], outs := s.outs[id := out],
         jobs := s.jobs[id := Committed(Reply(s.tree, r.query, r.draw), out)])
    case Announce(id) =>
      s.(jobs := s.jobs[id := Announced(s.jobs[id].reply)], announced := s.announced + [id])
    case Send(id) =>
      s.(jobs := s.jobs[id := Sent], channel := s.channel + [Answer(id, s.jobs[id].reply)])
  }

  ghost predicate Execution(rs: seq<Request>, s: State, es: seq<Event>, s': State)
    requires |s.jobs| == |rs|
    decreases |es|
  {
    if es == [] then s == s' else Enabled(rs, s, es[0]) && Execution(rs, Next(rs, s, es[0]), es[1..], s')
  }

  /** The wait loop leaves when every query has been started and the channel is full. */
  predicate Finished(rs: seq<Request>, s: State) {
    s.next == |rs| && |s.channel| >= |rs|
  }

  /** One query's store operation as a step of a serial run. */
  ghost function Step(rs: seq<Request>): (Tree, nat) -> Tree {
    (t: Tree, id: nat) => if id < |rs| then TreeAfter(t, rs[id].query, rs[id].draw) else t
  }

  function Ids(channel: seq<Answer>): (ids: seq<nat>)
    ensures |ids| == |channel|
  {
    seq(|channel|, k requires 0 <= k < |channel| => channel[k].id)
  }

  /** Position `k` of the serial order ran query `id` and gave this reply. */
  ghost predicate RepliedAt(t: Tree, rs: seq<Request>, order: seq<nat>, k: nat, id: nat, reply: Query) {
    && k < |order| && order[k] == id < |rs|
    && reply == Reply(RunAll(Step(rs), t, order[..k]), rs[id].query, rs[id].draw)
  }

  ghost predicate Replied(t: Tree, rs: seq<Request>, order: seq<nat>, id: nat, reply: Query)
    requires id < |rs|
  {
    if VerbOf(rs[id].query) == Invalid then reply == Reply(t, rs[id].query, rs[id].draw)
    else exists k: nat :: RepliedAt(t, rs, order, k, id, reply)
  }

  predicate Past(job: Job) {
    job.Committed? || job.Announced? || job.Sent?
  }

  predicate HasReply(job: Job) {
    job.Committed? || job.Announced?
  }

  /** The lists agree with the state of the goroutines. */
  ghost predicate JobsInv(rs: seq<Request>, s: State) {
    && |s.jobs| == |rs| && s.next <= |rs|
    && (forall id :: 0 <= id < |rs| ==> (s.jobs[id] == Unstarted <==> id >= s.next))
    && Distinct(s.order) && Distinct(Ids(s.channel))
    && (forall id: nat :: id in s.order <==>
          id < |rs| && VerbOf(rs[id].query) != Invalid && Past(s.jobs[id]))
    && (forall id :: 0 <= id < |rs| && VerbOf(rs[id].query) == Invalid ==> s.jobs[id].Unstarted? || s.jobs[id].Sent?)
    && (forall id: nat :: id in Ids(s.channel) <==> id < |rs| && s.jobs[id].Sent?)
  }

  /** The tree and the replies are those of the serial run so far. */
  ghost predicate RunInv(t: Tree, rs: seq<Request>, s: State)
    requires |s.jobs| == |rs|
  {
    && s.tree == RunAll(Step(rs), t, s.order)
    && (forall id :: 0 <= id < |rs| && HasReply(s.jobs[id]) ==> Replied(t, rs, s.order, id, s.jobs[id].reply))
    && (forall a :: a in s.channel ==> a.id < |rs| && Replied(t, rs, s.order, a.id, a.reply))
  }

  ghost predicate Inv(t: Tree, rs: seq<Request>, s: State) {
    JobsInv(rs, s) && RunInv(t, rs, s)
  }

  lemma RepliedStays(t: Tree, rs: seq<Request>, order: seq<nat>, more: seq<nat>, id: nat, reply: Query)
    requires id < |rs| && Replied(t, rs, order, id, reply)
    ensures Replied(t, rs, order + more, id, reply)
  {
    if VerbOf(rs[id].query) != Invalid {
      var k: nat :| RepliedAt(t, rs, order, k, id, reply);
      assert (order + more)[..k] == order[..k];
      assert RepliedAt(t, rs, order + more, k, id, reply);
    }
  }

  lemma InvSpawn(t: Tree, rs: seq<Request>, s: State)
    requires Inv(t, rs, s) && Due(rs, s, Spawn)
    ensures Inv(t, rs, Next(rs, s, Spawn))
  {
    var s' := Next(rs, s, Spawn);
    if VerbOf(rs[s.next].query) == Invalid {
      assert Ids(s'.channel) == Ids(s.channel) + [s.next];
      assert s.next !in Ids(s.channel);
    }
  }

  lemma InvSend(t: Tree, rs: seq<Request>, s: State, id: nat)
    requires Inv(t, rs, s) && Due(rs, s, Send(id))
    ensures Inv(t, rs, Next(rs, s, Send(id)))
  {
    var s' := Next(rs, s, Send(id));
    assert Ids(s'.channel) == Ids(s.channel) + [id];
    assert id !in Ids(s.channel);
    assert Distinct(Ids(s'.channel));
    assert forall a :: a in s'.channel ==> a in s.channel || a == Answer(id, s.jobs[id].reply);
  }

  lemma JobsInvCommit(rs: seq<Request>, s: State, id: nat)
    requires JobsInv(rs, s) && Due(rs, s, Commit(id))
    ensures JobsInv(rs, Next(rs, s, Commit(id))) && id !in s.order
  {
    assert id !in s.order;
    assert Next(rs, s, Commit(id)).order == s.order + [id];
  }

  lemma RunInvCommit(t: Tree, rs: seq<Request>, s: State, id: nat)
    requires |s.jobs| == |rs| && RunInv(t, rs, s) && Due(rs, s, Commit(id))
    requires VerbOf(rs[id].query) != Invalid
    ensures RunInv(t, rs, Next(rs, s, Commit(id)))
  {
    var s' := Next(rs, s, Commit(id));
    assert s'.order == s.order + [id];
    RunAllAppend(Step(rs), t, s.order, [id]);
    assert RunAll(Step(rs), s'.tree, [id][1..]) == s'.tree;
    assert s'.order[..|s.order|] == s.order;
    assert RepliedAt(t, rs, s'.order, |s.order|, id, s'.jobs[id].reply);
    forall i | 0 <= i < |rs| && HasReply(s'.jobs[i]) ensures Replied(t, rs, s'.order, i, s'.jobs[i].reply) {
      if i != id { RepliedStays(t, rs, s.order, [id], i, s.jobs[i].reply); }
    }
    forall a | a in s'.channel ensures Replied(t, rs, s'.order, a.id, a.reply) {
      RepliedStays(t, rs, s.order, [id], a.id, a.reply);
    }
  }

  lemma InvCommit(t: Tree, rs: seq<Request>, s: State, id: nat)
    requires Inv(t, rs, s) && Due(rs, s, Commit(id))
    ensures Inv(t, rs, Next(rs, s, Commit(id)))
  {
    JobsInvCommit(rs, s, id);
    RunInvCommit(t, rs, s, id);
  }

  lemma InvAnnounce(t: Tree, rs: seq<Request>, s: State, id: nat)
    requires Inv(t, rs, s) && Due(rs, s, Announce(id))
    ensures Inv(t, rs, Next(rs, s, Announce(id)))
  {
  }

  lemma InvStep(t: Tree, rs: seq<Request>, s: State, e: Event)
    requires Inv(t, rs, s) && Due(rs, s, e)
    ensures Inv(t, rs, Next(rs, s, e))
  {
    match e
    case Spawn => InvSpawn(t, rs, s);
    case Commit(id) => InvCommit(t, rs, s, id);
    case Announce(id) => InvAnnounce(t, rs, s, id);
    case Send(id) => InvSend(t, rs, s, id);
  }

  lemma {:induction false} InvAlways(t: Tree, rs: seq<Request>, s: State, es: seq<Event>, s': State)
    requires Inv(t, rs, s) && Execution(rs, s, es, s')
    ensures Inv(t, rs, s')
    decreases |es|
  {
    if es != [] {
      InvStep(t, rs, s, es[0]);
      InvAlways(t, rs, Next(rs, s, es[0]), es[1..], s');
    }
  }

  lemma StartInv(t: Tree, rs: seq<Request>)
    ensures Inv(t, rs, Start(t, rs))
  {
  }

  // --- Conservation -----------------------------------------------------------------------------------------

  /** No reply ever has to wait: whatever is due to be sent finds room on the channel. */
  lemma SendsNeverBlock(t: Tree, rs: seq<Request>, es: seq<Event>, s: State, e: Event)
    requires Execution(rs, Start(t, rs), es, s)
    requires |s.jobs| == |rs| && Due(rs, s, e)
    ensures Enabled(rs, s, e)
    ensures e.Send? || (e.Spawn? && VerbOf(rs[s.next].query) == Invalid) ==> |s.channel| < |rs|
  {
    StartInv(t, rs);
    InvAlways(t, rs, Start(t, rs), es, s);
    DistinctBelow(Ids(s.channel), |rs|);
    if Sends(rs, s, e) {
      var id := if e.Spawn? then s.next else e.id;
      assert id !in Ids(s.channel);
    }
  }

  function StepsLeft(job: Job): nat {
    match job
    case Unstarted => 4
    case Running => 3
    case Committed(_, _) => 2
    case Announced(_) => 1
    case Sent => 0
  }

  function Left(jobs: seq<Job>): nat {
    if jobs == [] then 0 else StepsLeft(jobs[0]) + Left(jobs[1..])
  }

  lemma {:induction false} LeftUpdate(jobs: seq<Job>, id: nat, job: Job)
    requires id < |jobs|
    ensures Left(jobs[id := job]) + StepsLeft(jobs[id]) == Left(jobs) + StepsLeft(job)
  {
    if id == 0 {
      assert jobs[id := job][1..] == jobs[1..];
    } else {
      assert jobs[id := job][0] == jobs[0] && jobs[id := job][1..] == jobs[1..][id - 1 := job];
      LeftUpdate(jobs[1..], id - 1, job);
    }
  }

  /** Every step brings the batch closer to its end ... */
  lemma EveryStepProgresses(t: Tree, rs: seq<Request>, s: State, e: Event)
    requires Inv(t, rs, s) && Due(rs, s, e)
    ensures Left(Next(rs, s, e).jobs) < Left(s.jobs)
  {
    var id := if e.Spawn? then s.next else e.id;
    var job := Next(rs, s, e).jobs[id];
    assert StepsLeft(job) < StepsLeft(s.jobs[id]) && Next(rs, s, e).jobs == s.jobs[id := job];
    LeftUpdate(s.jobs, id, job);
  }

  lemma FinishedIsStuck(t: Tree, rs: seq<Request>, s: State)
    requires Inv(t, rs, s) && Finished(rs, s)
    ensures forall id :: 0 <= id < |rs| ==> s.jobs[id].Sent?
    ensures forall e :: !Due(rs, s, e)
  {
    DistinctBelow(Ids(s.channel), |rs|);
    forall id: nat | id < |rs| ensures s.jobs[id].Sent? { assert id in Ids(s.channel); }
  }

  lemma NotFinishedMoves(t: Tree, rs: seq<Request>, s: State) returns (e: Event)
    requires Inv(t, rs, s) && !Finished(rs, s)
    ensures Due(rs, s, e)
  {
    if s.next < |rs| {
      e := Spawn;
    } else if id: nat :| id < |rs| && s.jobs[id] == Running {
      e := Commit(id);
    } else if id: nat :| id < |rs| && s.jobs[id].Committed? {
      e := Announce(id);
    } else if id: nat :| id < |rs| && s.jobs[id].Announced? {
      e := Send(id);
    } else {
      forall id: nat | id < |rs| ensures id in Ids(s.channel) { assert s.jobs[id].Sent?; }
      AllBelow(Ids(s.channel), |rs|);
      assert false;
    }
  }

  lemma {:induction false} LeftAtStart(n: nat)
    ensures Left(seq(n, _ => Unstarted)) == 4 * n
  {
    if n > 0 {
      var jobs := seq(n, _ => Unstarted);
      assert jobs[1..] == seq(n - 1, _ => Unstarted);
      LeftAtStart(n - 1);
    }
  }

  lemma {:induction false} StepsAreBounded(t: Tree, rs: seq<Request>, s: State, es: seq<Event>, s': State)
    requires Inv(t, rs, s) && Execution(rs, s, es, s')
    ensures |es| + Left(s'.jobs) <= Left(s.jobs)
    decreases |es|
  {
    if es != [] {
      EveryStepProgresses(t, rs, s, es[0]);
      InvStep(t, rs, s, es[0]);
      StepsAreBounded(t, rs, Next(rs, s, es[0]), es[1..], s');
    }
  }

  /** ... and the wait loop leaves exactly when no step is left to take, after a bounded number of them. */
  lemma WaitLoopExits(t: Tree, rs: seq<Request>, es: seq<Event>, s: State)
    requires Execution(rs, Start(t, rs), es, s)
    ensures |s.jobs| == |rs|
    ensures Finished(rs, s) <==> forall e :: !Enabled(rs, s, e)
    ensures |es| <= 4 * |rs|
  {
    StartInv(t, rs);
    InvAlways(t, rs, Start(t, rs), es, s);
    if Finished(rs, s) {
      FinishedIsStuck(t, rs, s);
    } else {
      var e := NotFinishedMoves(t, rs, s);
      SendsNeverBlock(t, rs, es, s, e);
    }
    StepsAreBounded(t, rs, Start(t, rs), es, s);
    LeftAtStart(|rs|);
  }

  function AnsweredFor(answers: seq<Answer>): (pairs: seq<(string, string)>)
    ensures |pairs| == |answers|
  {
    seq(|answers|, k requires 0 <= k < |answers| => (answers[k].reply.key, answers[k].reply.verb))
  }

  function AskedFor(rs: seq<Request>): (pairs: seq<(string, string)>)
    ensures |pairs| == |rs|
  {
    seq(|rs|, k requires 0 <= k < |rs| => (rs[k].query.key, rs[k].query.verb))
  }

  lemma RepliedKeepsRequest(t: Tree, rs: seq<Request>, order: seq<nat>, id: nat, reply: Query)
    requires id < |rs| && Replied(t, rs, order, id, reply)
    ensures reply.key == rs[id].query.key && reply.verb == rs[id].query.verb
  {
    if VerbOf(rs[id].query) != Invalid {
      var k: nat :| RepliedAt(t, rs, order, k, id, reply);
    }
  }

  /** When the wait loop leaves, the replies answer the requests one for one, by key and verb. */
  lemma RepliesAnswerRequests(t: Tree, rs: seq<Request>, es: seq<Event>, s: State)
    requires Execution(rs, Start(t, rs), es, s) && Finished(rs, s)
    ensures |s.channel| == |rs| && Distinct(Ids(s.channel))
    ensures forall a :: a in s.channel ==>
              && a.id < |rs|
              && a.reply.key == rs[a.id].query.key && a.reply.verb == rs[a.id].query.verb
    ensures multiset(AnsweredFor(s.channel)) == multiset(AskedFor(rs))
  {
    StartInv(t, rs);
    InvAlways(t, rs, Start(t, rs), es, s);
    var ids := Ids(s.channel);
    DistinctBelow(ids, |rs|);
    forall a | a in s.channel
      ensures a.reply.key == rs[a.id].query.key && a.reply.verb == rs[a.id].query.verb
    {
      RepliedKeepsRequest(t, rs, s.order, a.id, a.reply);
    }
    assert forall k :: 0 <= k < |ids| ==> s.channel[k] in s.channel;
    PermutedMultiset(AskedFor(rs), ids, AnsweredFor(s.channel));
  }

  /** The handler's last loop: the response holds the replies in channel order and flags any error. */
  method Collect(result: seq<Query>) returns (query: seq<Query>, queryErrors: bool)
    ensures query == result
    ensures queryErrors <==> exists r :: r in result && r.error != ""
  {
    query, queryErrors := [], false;
    for i := 0 to |result|
      invariant query == result[..i]
      invariant queryErrors <==> exists r :: r in query && r.error != ""
    {
      var r := result[i];
      if r.error != "" { queryErrors := true; }
      query := query + [r];
      assert r in query;
    }
  }

  // --- Schedule independence --------------------------------------------------------------------------------

  ghost predicate Overlap(rs: seq<Request>, i: nat, j: nat) {
    && i < |rs| && j < |rs|
    && (SlashPrefix(rs[i].query.key, rs[j].query.key) || SlashPrefix(rs[j].query.key, rs[i].query.key))
  }

  /** Keys overlap exactly when the walk to one of them passes through the other. */
  lemma OverlapIsOnTheWay(rs: seq<Request>, i: nat, j: nat)
    requires i < |rs| && j < |rs|
    ensures Overlap(rs, i, j) <==> Comparable(Components(rs[i].query.key), Components(rs[j].query.key))
  {
    PrefixIsSlashPrefix(rs[i].query.key, rs[j].query.key);
    PrefixIsSlashPrefix(rs[j].query.key, rs[i].query.key);
  }

  /** Two queries whose writes conflict, as updates do, neither of them a put that can never go through. */
  ghost predicate WritesConflict(rs: seq<Request>, i: nat, j: nat) {
    var u, w := Written(rs, i), Written(rs, j);
    u.Some? && w.Some? && Possible(u.value) && Possible(w.value) && Conflict(u.value, w.value)
  }

  ghost function Conflicts(rs: seq<Request>): (nat, nat) -> bool {
    (i: nat, j: nat) => WritesConflict(rs, i, j)
  }

  lemma StepsCommute(rs: seq<Request>)
    ensures Dependence(Conflicts(rs)) && Commutes(Step(rs), Conflicts(rs))
  {
    var step := Step(rs);
    forall t, i: nat, j: nat | !Conflicts(rs)(i, j) ensures step(step(t, i), j) == step(step(t, j), i) {
      var u, w := Written(rs, i), Written(rs, j);
      if u.Some? && w.Some? && Possible(u.value) && Possible(w.value) { UpdatesCommute(t, u.value, w.value); }
    }
  }

  lemma ConflictsOverlap(rs: seq<Request>, i: nat, j: nat)
    requires WritesConflict(rs, i, j)
    ensures Overlap(rs, i, j)
  {
    PrefixIsSlashPrefix(rs[i].query.key, rs[j].query.key);
    PrefixIsSlashPrefix(rs[j].query.key, rs[i].query.key);
  }

  /** The final tree is that of a serial run, in the order the store operations happened to take. */
  lemma BatchIsSerializable(t: Tree, rs: seq<Request>, es: seq<Event>, s: State)
    requires Execution(rs, Start(t, rs), es, s) && Finished(rs, s)
    ensures Distinct(s.order) && (forall id: nat :: id in s.order <==> id < |rs| && VerbOf(rs[id].query) != Invalid)
    ensures s.tree == RunAll(Step(rs), t, s.order)
    ensures forall a :: a in s.channel ==> a.id < |rs| && Replied(t, rs, s.order, a.id, a.reply)
  {
    StartInv(t, rs);
    InvAlways(t, rs, Start(t, rs), es, s);
    DistinctBelow(Ids(s.channel), |rs|);
  }

  /** Two schedules that order conflicting writes alike leave the same tree. */
  lemma SameConflictOrderSameTree(t: Tree, rs: seq<Request>, es: seq<Event>, s: State, es': seq<Event>, s': State)
    requires Execution(rs, Start(t, rs), es, s) && Finished(rs, s)
    requires Execution(rs, Start(t, rs), es', s') && Finished(rs, s')
    requires forall i: nat, j: nat :: i != j && WritesConflict(rs, i, j) ==>
               Restrict(s.order, i, j) == Restrict(s'.order, i, j)
    ensures s.tree == s'.tree
  {
    BatchIsSerializable(t, rs, es, s);
    BatchIsSerializable(t, rs, es', s');
    DistinctSameElements(s.order, s'.order);
    StepsCommute(rs);
    ReorderedRunsAgree(Step(rs), Conflicts(rs), t, s.order, s'.order);
  }

  lemma {:induction false} PutStatusElsewhere(t: Tree, w: Update, p: Path, i: nat)
    requires !Comparable(p, Target(w)) && i < |p|
    ensures PutStatus(Apply(t, w), p, i) == PutStatus(t, p, i)
    decreases |p| - i
  {
    LookApply(t, w, p);
    LookApply(t, w, p[..i + 1]);
    if i < |p| - 1 { PutStatusElsewhere(t, w, p, i + 1); }
  }

  lemma ReplyElsewhere(t: Tree, w: Update, q: Query, d: Draw)
    requires !Comparable(Components(q.key), Target(w))
    ensures Reply(Apply(t, w), q, d) == Reply(t, q, d)
  {
    LookApply(t, w, Components(q.key));
    PutStatusElsewhere(t, w, Components(q.key), 0);
  }

  lemma {:induction false} ReplyAfterOthers(t: Tree, rs: seq<Request>, others: seq<nat>, id: nat)
    requires id < |rs| && forall o :: o in others ==> !Overlap(rs, id, o)
    ensures Reply(RunAll(Step(rs), t, others), rs[id].query, rs[id].draw) == Reply(t, rs[id].query, rs[id].draw)
    decreases |others|
  {
    if others != [] {
      var o := others[0];
      assert o in others;
      if o < |rs| {
        var w := Write(rs[o].query, rs[o].draw);
        if w.Some? {
          PrefixIsSlashPrefix(rs[id].query.key, rs[o].query.key);
          PrefixIsSlashPrefix(rs[o].query.key, rs[id].query.key);
          ReplyElsewhere(t, w.value, rs[id].query, rs[id].draw);
        }
      }
      ReplyAfterOthers(Step(rs)(t, o), rs, others[1..], id);
    }
  }

  lemma RepliesAsAlone(t: Tree, rs: seq<Request>, es: seq<Event>, s: State)
    requires Execution(rs, Start(t, rs), es, s) && Finished(rs, s)
    requires forall i: nat, j: nat :: i != j ==> !Overlap(rs, i, j)
    ensures forall a :: a in s.channel <==> a.id < |rs| && a.reply == Reply(t, rs[a.id].query, rs[a.id].draw)
  {
    BatchIsSerializable(t, rs, es, s);
    RepliesAnswerRequests(t, rs, es, s);
    forall a | a in s.channel ensures a.id < |rs| && a.reply == Reply(t, rs[a.id].query, rs[a.id].draw) {
      if VerbOf(rs[a.id].query) != Invalid {
        var k: nat :| RepliedAt(t, rs, s.order, k, a.id, a.reply);
        forall o | o in s.order[..k] ensures o != a.id { }
        ReplyAfterOthers(t, rs, s.order[..k], a.id);
      }
    }
    DistinctBelow(Ids(s.channel), |rs|);
    forall a: Answer | a.id < |rs| && a.reply == Reply(t, rs[a.id].query, rs[a.id].draw) ensures a in s.channel {
      assert a.id in Ids(s.channel);
      var k :| 0 <= k < |s.channel| && Ids(s.channel)[k] == a.id;
      assert s.channel[k] in s.channel;
    }
  }

  /**
   * Schedule independence: if no two keys of the batch overlap, the final tree and every single reply are the
   * same under all schedules, and each reply is what the query would get were it alone.
   */
  lemma DisjointBatchIgnoresSchedule(t: Tree, rs: seq<Request>, es: seq<Event>, s: State, es': seq<Event>, s': State)
    requires Execution(rs, Start(t, rs), es, s) && Finished(rs, s)
    requires Execution(rs, Start(t, rs), es', s') && Finished(rs, s')
    requires forall i: nat, j: nat :: i != j ==> !Overlap(rs, i, j)
    ensures s.tree == s'.tree
    ensures forall a :: a in s.channel ==> a.id < |rs| && a.reply == Reply(t, rs[a.id].query, rs[a.id].draw)
    ensures forall a :: a in s.channel <==> a in s'.channel
  {
    forall i: nat, j: nat | i != j ensures !WritesConflict(rs, i, j) {
      if WritesConflict(rs, i, j) { ConflictsOverlap(rs, i, j); }
    }
    SameConflictOrderSameTree(t, rs, es, s, es', s');
    RepliesAsAlone(t, rs, es, s);
    RepliesAsAlone(t, rs, es', s');
  }

  lemma {:induction false} OneMoreEvent(rs: seq<Request>, s: State, es: seq<Event>, s': State, e: Event)
    requires |s.jobs| == |rs| && Execution(rs, s, es, s')
    requires |s'.jobs| == |rs| && Enabled(rs, s', e)
    ensures Execution(rs, s, es + [e], Next(rs, s', e))
    decreases |es|
  {
    if es == [] {
      assert (es + [e])[1..] == [];
    } else {
      assert (es + [e])[1..] == es[1..] + [e];
      OneMoreEvent(rs, Next(rs, s, es[0]), es[1..], s', e);
    }
  }
}
