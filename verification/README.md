# Verification of the Cave key-value store

Cave is a master-less key-value store. Each node keeps a tree of buckets and objects in an embedded database,
applies its clients' operations to its own tree, and broadcasts what it did; every other node re-applies the
broadcasts as they arrive. This project models that core in Dafny and proves what can be relied on.

## The system and its model

**The tree and its flat view** (`Tree.dfy`, `Updates.dfy`, `FlatStore.dfy`). The database is a tree of buckets.
`Look` says what stands at a path: nothing, a bucket, or an object. Two trees with the same view are equal, so
everything is stated path by path. A put or deletion that fails changes nothing. `FlatStore` is a machine on path
strings alone, a partial map and a set of bucket paths, which the tree simulates step for step.

**The store object** (`Paths.dfy`, `Bolt.dfy`, `Cursor.dfy`, `KV.dfy`, `Cluster.dfy`). `KV` is a class whose field
is the database and whose methods follow the code: `ParsePath` with its loops, the walk of `GetBuckets` inside a
transaction that creates buckets as it goes, commit or roll back, then emission through `Cluster.Emit`. The
transaction class `Tx` states what is assumed of the embedded database. Every method is tied to the functions that
the theory uses, and says what it sends.

**Replicas** (`Traces.dfy`, `Convergence.dfy`, `Replay.dfy`, `Operations.dfy`, `Replication.dfy`, `JoinGaps.dfy`,
`Mesh.dfy`, `MeshExact.dfy`, `Broadcast.dfy`). `Convergence` decides exactly which pairs of updates conflict, and
shows that replicas agree when they agree on the order of conflicting pairs. `Replay` shows that an emitted log
replayed over a tree that already contains any part of it ends where it ended before; its invariant is the relation
`Weave`. `Replication` is the state machine of one writer and its peers over ordered links, with late joiners that
take their snapshots from any node at work, up to date or not, before or after the writer knows them; `JoinGaps` says
exactly when that is safe. `Mesh` has any number of writing nodes and shows when they agree; `MeshExact` shows which
updates different nodes may send, exactly, if they are to agree always. `Broadcast` has any number of nodes, any
messages and any order of delivery, and shows that the network runs dry.

**Reading** (`Enumeration.dfy`): the whole-tree dump, and browsing listing by listing.

**Locks** (`LockHistory.dfy`): what the lock list of an object is after any run.

**Batches and requests** (`Queries.dfy`, `Batch.dfy`, `BatchBroadcast.dfy`, `Schedules.dfy`, `BatchExact.dfy`,
`Counting.dfy`, `Rest.dfy`, `Api.dfy`): what a single query means by its text; the multi-query handler as an
interleaving of its goroutines, each of which commits, broadcasts and replies in three steps; which orders of steps can
happen; exactly which batches the other nodes follow, and exactly which leave the same tree under every schedule; what
no run of requests can do; and the handlers as methods on the store object, the batch handler carrying out any such
interleaving.

**Tokens** (`Tokens.dfy`, `TokenCluster.dfy`, `TokenRaces.dfy`): one node's token store as a class, many of them
replacing one another's contents, and what several issuers can do to one another.

Clock readings, random ids, the machine's id, JSON validity of a value and the sealed form of a secret are
parameters. Times are integers; bytes are characters. Order of delivery is a hypothesis wherever it is needed,
because `Emit` hands each copy to a goroutine of its own.

### Results worth knowing

- A put succeeds exactly when no name in the path is empty, no proper slash-prefix of it holds a value and it is
  not a bucket. When it fails, the buckets made on the way are gone again.
- Two updates commute on every tree exactly when they do not conflict: deletions never conflict with one another, a
  put conflicts with another put on an overlapping path and with a deletion at or above its path.
- Replaying an emitted log changes nothing, and this needs the rule that failed puts are not emitted: with them it
  is false for every tree in which a put is blocked by a value that is then deleted.
- A joiner asks its nearest neighbour for a snapshot, whoever that is (cluster.go:363-369). Joining is safe, whatever
  happens afterwards, exactly when the snapshot held everything the writer sent before it knew the joiner. Otherwise
  updates still on their way to the neighbour never reach the joiner, although no message is lost. Even then each path
  shows what the writer had there at some moment, or nothing where that changed.
- Nodes that all write agree as soon as they have received the same updates, if conflicting updates come from one
  node only. From three nodes on this is exact: all runs under a policy of who may send what end in agreement if and
  only if the policy gives no two nodes updates that conflict. One pair is enough to part them for good.
- The goroutines of a batch may commit in one order and broadcast in another (kv.go:359-378). The other nodes follow a
  batch under all schedules if and only if no two of its writes clash: a put, and a different put on its path or a
  deletion at or above its path. Puts on nested paths conflict but do not clash, since not both can go through. In one
  given schedule it is enough that the writes that clash are broadcast in the order of their commits.
- The tree a batch leaves is the same under all schedules if and only if no two of its writes conflict.
- Two nodes that issue tokens at the same time replace each other's stores, so that a live token vanishes from the
  node that issued it. That cannot happen if and only if a single node broadcasts tokens; with several it does not
  happen if every broadcast waits for the one before to have reached everybody.
- A sweep of the token store takes a token issued at the very moment of its clock reading for one not issued yet,
  while validation accepts it. All sweeps with clock readings between two times go unnoticed exactly when every token
  with an issue time from the first on is dead from the second on.
- A delete request changes the store exactly when an object is stored at its path, and no run of requests ever
  removes a bucket: the path that would name one always ends in an empty component (api.go:243-252).

### Where the code and its documentation part

- A batch query has a secret flag of its own, in place of the URL parameter of that name which the program's
  documentation describes for single paths (line 41 of its README, and api.go:204-211). With the flag set the value is
  decrypted and at once overwritten with the stored text (api.go:323-330). `Batch.Reply` follows the code.
- The error field of a query is read from the request like all its others, and a put that goes through leaves it as it
  came (api.go:335-354): a query that arrives with an error is answered as one that failed.
- A deletion with emission never reports a local failure, and is broadcast all the same (kv.go:465-471,
  kv.go:494-500). Only the variant without emission reports one.
- The lock handlers are called with emission off and emit anyway (kv.go:222, kv.go:560).

## Model

| member | source | states |
|---|---|---|
| Paths.LastIndex | kv.go:273 | the position of the last slash, or -1 when there is none |
| Paths.Split | kv.go:278 | the splitting loop yields the component list |
| Paths.ParsePath | kv.go:272-280 | buckets and key joined with slashes give the path back; none of them contains a slash |
| Paths.JoinComponents | kv.go:272-280 | splitting any string and joining again is the identity |
| Paths.ComponentsJoin | kv.go:272-280 | joining any non-empty list of slash-free names and splitting again is the identity |
| Paths.ComponentsInjective | kv.go:272-280 | different paths have different components |
| Paths.PrefixIsSlashPrefix | kv.go:308-322 | the walk to one path passes through another exactly when that one is it, or begins it up to a slash |
| Updates.PutSucceedsExactly | kv.go:308-367 | the walk meets no obstacle exactly when no name is empty, no proper prefix holds a value, and the path is not a bucket |
| Updates.PutReportsFirstObstacle | kv.go:308-367 | a failing put reports the first obstacle on its way: an empty name, a value on the way, a bucket at the end, each with its own error |
| Updates.FirstMissingExactly | kv.go:314-321 | a walk without creation reports the name after the last bucket on the path |
| Updates.DeletionsReport | kv.go:446-501 | what a deletion without emission reports: a bucket missing on the way, a bucket for an object, an object or nothing for a bucket; a missing object is no error |
| Updates.LookApply | kv.go:359-372 | a put that goes through sets one path and makes the paths above it buckets; a deletion clears its path and all below; nothing else changes |
| Updates.RunKeepsWellFormed | kv.go:298-324 | no run of updates ever stores an empty name or one with a slash |
| FlatStore.TreeRefinesFlat | kv.go:347-380 | one update of the bucket tree is one step of the machine on path strings, failures included |
| FlatStore.StoredPathsPrefixFree | kv.go:308-322 | no stored path is a slash-prefix of another stored path or of a bucket |
| FlatStore.ViewDeterminesTree | kv.go:298-324 | two stores with the same values and bucket paths are the same tree |
| FlatStore.StoredCanBePut | kv.go:559-563 | an object that is stored can always be put again |
| FlatStore.TrailingSlashDeletesNothing | api.go:243-252 | neither a key deletion nor a bucket deletion removes anything through a path with a trailing slash |
| Bolt.Tx.constructor | kv.go:359 | a transaction starts on a copy of the database |
| Bolt.Tx.Bucket | kv.go:316 | finds a sub-bucket and nothing else |
| Bolt.Tx.CreateBucketIfNotExists | kv.go:311 | fails on an empty name and on a value, otherwise the bucket exists afterwards and only it is new |
| Bolt.Tx.Put | kv.go:364 | fails on an empty key and on a bucket, otherwise stores the object |
| Bolt.Tx.Get | kv.go:402 | the object, and nothing for a missing key or a bucket |
| Bolt.Tx.Delete | kv.go:459 | no error for a missing key, an error for a bucket |
| Bolt.Tx.DeleteBucket | kv.go:488 | removes a bucket with its contents; a missing bucket is one error, a plain value another |
| KV.KV.constructor | kv.go:83-98 | an existing database file keeps its tree, a new one holds an empty root bucket |
| KV.KV.EmitEvent | kv.go:253-270 | one packet for each peer in turn, of type `update`, with the update, the data type `KVUpdate`, this node's address and the next epoch; nothing in development mode |
| KV.SentOneByOne | kv.go:253-270 | a list of updates is sent one after the other, each as one such broadcast |
| KV.KV.GetBuckets | kv.go:298-324 | with creation, exactly the buckets along the path are opened, or the first obstacle is reported; without, the tree is untouched and the first missing name is reported |
| KV.KV.PutObject | kv.go:347-380 | succeeds exactly when the put is possible; on any failure the tree is as before; emits only after commit |
| KV.KV.Put | kv.go:327-344 | stores a new object without locks |
| KV.KV.GetObject | kv.go:392-410 | the object at the path, an error for everything else |
| KV.KV.DeleteKey | kv.go:446-472 | removes at most the one object; with emission always broadcasts and never reports the local error |
| KV.KV.DeleteBucket | kv.go:475-501 | removes the bucket with everything below it or nothing; emits like a key deletion |
| KV.KV.GetKeys | kv.go:413-443 | every name in the bucket once, in the byte order of the cursor, with a slash exactly for sub-buckets; an error when a bucket on the way is missing |
| KV.ListNames | kv.go:429-438 | the cursor loop yields each marked name exactly once, in increasing byte order |
| KV.KV.GetTree | kv.go:505-525 | the whole tree as nested maps |
| KV.KV.Lock | kv.go:542-565 | draws up a lock for the path and root bucket with a lifetime of five minutes, appends it to the stored object and always broadcasts that; fails exactly when there is no object |
| KV.KV.Unlock | kv.go:568-588 | drops the first lock with the id and always broadcasts the object; finds nothing under the other root bucket; panics, and so may not be called, when the lock is missing or names no root bucket |
| KV.FindLock | kv.go:575-581 | the loop finds the first lock with the id, or -1 |
| KV.KV.HandleUpdate | kv.go:197-241 | the tree and the messages the dispatcher gives rise to, for every kind of update, with its error |
| Operations.PlainUpdates | kv.go:205-220 | key and bucket updates are applied and nothing is sent on |
| Operations.LockCreationReceived | kv.go:221-225 | a received lock creation appends the lock to the object and sends the object on, or does nothing when there is no object |
| Operations.LockDeletionPanics | kv.go:226-235 | a received lock deletion crashes the node exactly when the lock names no root bucket, or an object that lacks it |
| Operations.LockDeletionReceived | kv.go:226-235 | otherwise it drops the first lock with the id and sends the object on, or does nothing when there is no object |
| KV.KV.WorkOff | kv.go:176-195 | working off a queue of key and bucket updates runs them in order and sends nothing |
| Cluster.Cluster.constructor | cluster.go:42-52 | a node starts at epoch 0 with no peers |
| Cluster.Cluster.Emit | cluster.go:261-292 | the wire grows by one packet for each peer known, the i-th to the i-th peer, all with the given type, data and data type, this node's address and the next epoch modulo 2^64, and the epoch moves on by one; nothing in development mode |
| Cluster.AfterEmitBroadcasts | cluster.go:280-289 | the same of the function that the emission laws use |
| Cluster.Cluster.SendSync | cluster.go:501-521 | one message with the next epoch, which stays free |
| Cluster.Cluster.Receive | cluster.go:125-157 | updates and tokens go to their own queues, a sync message starts the response, the sending or the taking of a shared key as its data type says, everything else is dropped |
| Cluster.EpochsHaveNoGaps | cluster.go:266-290 | over every run of calls emitted messages carry consecutive epochs modulo 2^64, sync messages or not |
| Cluster.OneCopyPerPeer | cluster.go:280-289 | over every run, for each address and message, the network gets as many copies as the address occurs among the peers known at the emissions of that message |
| Cluster.CopiesInOrder | cluster.go:280-289 | and it gets them in the order of the emissions and of the peers |
| Cluster.DiscoveredPeersHear | cluster.go:209 | an emission goes to exactly the peers discovered last |
| Convergence.UpdatesCommute | kv.go:205-220 | updates that do not conflict can be applied in either order |
| Convergence.ConflictIsExact | kv.go:205-220 | two updates commute on all trees if and only if they do not conflict |
| Convergence.ConflictOnStrings | kv.go:272-280 | conflict is a test on the two path strings |
| Convergence.ReplicasConverge | kv.go:186-190 | nodes that apply the same updates and agree on the order of conflicting pairs end with the same tree |
| Replay.EmittedLogIsFaithful | kv.go:370-378 | what a node emits rebuilds its own tree, and every put in it went through |
| Replay.WeaveStep | kv.go:205-220 | a tree woven from a window of moments stays woven under any update of the window, and the first update of the window moves it along |
| Replay.CatchUp | main.go:68-76 | from any tree woven from the moments m to the end, the updates from the m-th on lead to the end |
| Replay.ReplayChangesNothing | kv.go:370-378 | replaying an emitted log over its own result changes nothing, empty buckets included |
| Replay.SnapshotJoin | cluster.go:378-451 | a snapshot woven from moments not before j, plus all updates from the j-th on, gives exactly the origin's tree |
| Replay.FailedPutsMustNotBeEmitted | kv.go:370-372 | were failed puts emitted, replay would change the tree, for every put blocked by a value deleted next |
| Operations.SentIsFaithful | kv.go:370-378 | an operation sends at most one update, and that update has the operation's effect |
| Operations.LogPrefixIsOpPrefix | kv.go:370-378 | every prefix of what was sent leads to the tree after some prefix of the operations |
| Replication.InvStep | cluster.go:330-374 | every step of writer, links, peers and joiners keeps the replication invariant, wherever and whenever snapshots are taken |
| Replication.PeersShowAWriterState | kv.go:186-190 | in every reachable state a covered peer that is past its snapshot shows the writer's tree after some prefix of its operations |
| Replication.DrainedPeersEqualWriter | kv.go:186-190 | in every reachable state a covered peer with empty link and queue, late joiner or not, has the writer's tree |
| Replication.PeersShowAWeave | cluster.go:378-451 | in every reachable state each path of a ready peer, covered or not, shows what the writer had there at a moment of a known window, or nothing where that changed |
| Replication.FoundersStay | kv.go:186-190 | a peer present from the start always shows exactly the moment its link and queue say |
| Replication.FoundersShowAWriterState | kv.go:186-190 | in every state of every run a peer present from the start shows the writer's tree after some prefix of its operations |
| Replication.WeakOrderSuffices | cluster.go:280-289 | links that only keep the order of conflicting pairs still deliver the writer's tree |
| JoinGaps.CoverageIsExact | cluster.go:330-374 | for all positions, joiners with that snapshot and that connection always end with the writer's tree if and only if the snapshot held all that was sent before the connection |
| JoinGaps.GapRun | cluster.go:330-374 | for all positions with a gap there is a run after which the drained joiner differs from the writer |
| JoinGaps.LaggingSourceLosesUpdates | cluster.go:363-369 | a run without any loss in which the joiner asks a peer that is one update behind, and never gets that update |
| Mesh.InvStep | kv.go:186-190 | every node has applied a prefix of what each node sent, its own included, in the order of sending |
| Mesh.NodesAgree | kv.go:186-190 | in every reachable state, nodes that received the same updates hold the same tree, if conflicting updates come from one node only |
| Mesh.QuietNodesAgree | kv.go:186-190 | under the same condition all nodes hold one tree once nothing is on its way |
| MeshExact.AgreementIsExact | kv.go:205-220 | for three nodes or more: all quiet runs under a policy of who may send what end in agreement if and only if no two nodes may send conflicting updates |
| MeshExact.PairIsExact | kv.go:205-220 | if one node sends just one update and another just one other, all quiet runs end in agreement if and only if the two do not conflict |
| MeshExact.OvertakenDeletionDiverges | cluster.go:280-289 | a put that follows a deletion at or above its path can reach a third node first, which then differs for good |
| MeshExact.CrossedPutsDiverge | kv.go:205-210 | among any number of nodes and from every tree that takes the path, two nodes that put different objects on it can differ for good |
| MeshExact.Drain | kv.go:181-194 | from every state the network can run dry without further operations, and nodes that have received everything do not change |
| Broadcast.SentOnPlainly | kv.go:205-235 | key and bucket updates send nothing on, a lock update at most one put per peer |
| Broadcast.DeliveryConserves | cluster.go:280-289 | delivery moves updates and neither drops nor makes any |
| Broadcast.LossAccounts | cluster.go:283-287 | a loss takes one copy away |
| Broadcast.HandlingIsLocal | kv.go:186-190 | handling leaves the node with the tree the update leads to, or stops it, and leaves all other nodes alone |
| Broadcast.HandlingAccounts | cluster.go:280-289 | handling takes one update off its own queue and puts what it sends on on its way once for each peer |
| Broadcast.EveryStepLowersTheMeasure | cluster.go:280-289 | every delivery, loss or handling lowers a weighted count of messages |
| Broadcast.RunsAreBounded | cluster.go:280-289 | without client operations every run is no longer than that count |
| Broadcast.StuckMeansDrained | kv.go:181-194 | a run stops exactly when nothing is in flight and nothing queued at a running node |
| Broadcast.CanAlwaysDrain | kv.go:181-194 | from every state the network can run dry |
| Enumeration.EnumerateBucket | kv.go:527-539 | the cursor loop with its recursion renders the bucket as nested maps |
| Enumeration.EnumerationAgreesWithLookup | kv.go:527-539 | the flattened dump holds a path and object exactly when a get returns that object there |
| Enumeration.DumpShowsTree | kv.go:527-539 | the dump shows at every path what stands there, empty buckets included |
| Enumeration.DumpDeterminesTree | kv.go:527-539 | trees with the same dump are the same |
| Cursor.BeforeIsByteOrder | kv.go:429-438 | the cursor's order is the byte order: the first difference decides, a prefix comes first |
| Enumeration.RebuildInAnyOrder | kv.go:347-380 | the stored pairs put into an empty store in any order all succeed and rebuild the values and the buckets that lead to values |
| Enumeration.ListingExists | kv.go:527-539 | such a list of pairs exists for every well-formed tree |
| Enumeration.MarkMeansBucket | kv.go:431-437 | a listed name ends in a slash exactly when it stands for a bucket |
| Enumeration.BrowsingIsComplete | kv.go:413-443 | walking the listings down from the root ends, and finds exactly the paths a get answers |
| LockHistory.ObjectAfter | kv.go:542-588 | the object at a path changes only by a put, lock or unlock of that path or by its removal |
| LockHistory.LocksAreTheGrantedOnes | kv.go:542-588 | after any run a stored object is the last successful put of its path, or what was there before the run, with the locks it had then and those granted since, in grant order, without those released |
| LockHistory.UnlockUndoesLock | kv.go:568-588 | locking and unlocking leaves the whole store as it was |
| Batch.SendsNeverBlock | api.go:269-284 | in every reachable state a reply that is due finds room on the channel |
| Batch.EveryStepProgresses | api.go:269-284 | every step of handler or goroutine brings the batch closer to its end |
| Batch.WaitLoopExits | api.go:285-291 | the wait loop leaves exactly when no step is left, after at most four steps per query |
| Batch.RepliesAnswerRequests | api.go:297-302 | the replies are the requests, one for one, by key and verb |
| Batch.Collect | api.go:292-302 | the response holds all replies and flags an error exactly if one has an error |
| Batch.BatchIsSerializable | api.go:269-284 | the final tree and all replies are those of some serial order of the queries |
| Batch.SameConflictOrderSameTree | api.go:269-284 | schedules that order conflicting writes alike leave the same tree |
| Batch.ReplyElsewhere | api.go:311-365 | a query's reply, error text included, does not depend on updates to paths that do not overlap |
| Batch.OverlapIsOnTheWay | kv.go:272-280 | keys overlap exactly when the walk to one passes through the other |
| Batch.DisjointBatchIgnoresSchedule | api.go:269-284 | without overlapping keys the tree and all replies are the same under all schedules, and each reply is what the query would get alone |
| Queries.VerbsByText | api.go:270-279 | which verb a text stands for, letter by letter and case aside |
| Queries.GetQuery | api.go:311-333 | a get changes and broadcasts nothing and answers the stored text, sealed or not, with its two errors |
| Queries.PutQuery | api.go:335-354 | a put stores and broadcasts an object with the given text, or for a secret its sealed form, the clock reading, the flags and no locks; if it cannot be stored or sealed, nothing is stored or broadcast and the reply is an error |
| Queries.PutErrors | api.go:335-354 | which error a put that stores nothing reports: that it cannot be sealed, or the first obstacle on its way |
| Queries.DeleteQuery | api.go:356-365 | a delete leaves no object at the key and everything else as it was, broadcasts one deletion and carries no error of its own |
| Queries.UnknownQuery | api.go:280-283 | any other verb changes and broadcasts nothing and is an error |
| Queries.ReadYourWrites | api.go:311-354 | what a put stored, for a secret the sealed form, is what a get returns, unless it is empty; after a put that stored nothing a get answers as before it |
| Queries.DeletedIsGone | api.go:311-365 | after a delete a get finds no object |
| Queries.FailedPutIsReported | api.go:335-354 | a put that stores leaves the error field as it came, one that stores nothing fills it; no error is reported exactly if it stored and came without one |
| BatchBroadcast.ClashOnStrings | kv.go:272-280 | clashing is a test on the two path strings |
| BatchBroadcast.PeersFollowBatch | kv.go:359-378 | peers that apply the broadcasts of a batch end with its tree, if the writes that clash are broadcast in the order of their commits |
| Schedules.Realise | api.go:269-284 | every order of commits can happen together with every order of broadcasts |
| BatchExact.FollowedExactly | kv.go:359-378 | for batches of any size: peers end with the tree of the batch under all schedules if and only if no two of its writes clash |
| BatchExact.ClashParts | kv.go:359-378 | for every clashing pair, whatever the other queries, there is a tree and a schedule that part the peers from the batch |
| BatchExact.TwoPutsPart | kv.go:359-378 | from every tree that takes the key, a batch that puts it twice has a schedule that leaves the peers with the overwritten value |
| BatchExact.TreeIsFixedExactly | api.go:269-284 | for batches of any size: all schedules leave the same tree if and only if no two writes conflict |
| Rest.EndsInSlashExactly | api.go:243 | a path ends in a slash exactly when it is a path followed by one |
| Rest.DeleteRequestExactly | api.go:241-257 | a delete request changes the store if and only if an object is stored at its path; it removes that object, nothing else, and no bucket |
| Rest.OneMoreCall | api.go:128-138 | requests take effect one after the other: a path deletion removes its object and nothing else, a query what its verb says |
| Rest.RequestsNeverRemoveBuckets | api.go:241-257 | over every run of requests the set of buckets only grows |
| Api.API.DoGET | api.go:311-333 | the reply to a get, whether or not a secret can be decrypted |
| Api.API.DoPOST | api.go:335-354 | the reply and the tree after a put, and what is broadcast: for a secret the sealed form, and nothing if it cannot be sealed |
| Api.API.DoDELETE | api.go:356-365 | the reply and the tree after a delete, and what is broadcast |
| Api.API.RunQuery | api.go:270-279 | by the text of the verb: a get leaves tree and network alone, a put or post stores and broadcasts the new object, a delete leaves no object and broadcasts one deletion |
| Api.API.CommitQuery | kv.go:359-369 | a goroutine up to its commit: reply, tree and what it has still to broadcast, by the verb |
| Api.API.AnnounceQuery | kv.go:370-378 | the rest of it: exactly that is broadcast |
| Api.API.KvPutHandler | api.go:217-239 | success exactly when the body can be read, a secret be sealed and the path be put; then the object stored and broadcast holds the body or its sealed form; otherwise nothing changes and nothing is sent |
| Api.API.KvDeleteHandler | api.go:241-257 | the tree and the broadcasts of a path deletion; success is answered in any case |
| Api.API.Schedule | api.go:269-291 | as long as the wait loop has not left, some step is due |
| Api.API.Take | api.go:269-284 | each step on the real store is a step of the interleaving, and only broadcasts put messages on the network |
| Api.API.MultiQuery | api.go:259-309 | whatever the schedule, the handler ends, has carried out a complete execution of the interleaving, and has broadcast what that execution says, in its order; the response holds for each request, by key and verb, one reply, that of a serial order, and on keys that do not overlap the one it would get alone; the status is 400 exactly if a reply has an error |
| Api.ChannelAnswers | api.go:292-302 | the replies on the channel, position by position, answer the requests |
| Tokens.TokenStore.constructor | token.go:27-39 | a store starts empty |
| Tokens.TokenStore.Emit | token.go:247-266 | the whole store goes to every peer, as one message of type `token` and data type `token:update` |
| Tokens.TokenStore.Issue | token.go:215-245 | the new token is stored under its id and the store broadcast; it is valid for its user and kind from its issue on for 60 minutes, or for 87600 hours, in nanoseconds, and names this node as its issuer |
| Tokens.TokenStore.HandleUpdate | token.go:136-150 | the received store replaces this one |
| Tokens.TokenStore.Find | token.go:153-162 | the token under the id, or nothing |
| Tokens.TokenStore.Validate | token.go:165-178 | true exactly for a stored token of that user and kind within its lifetime at the two clock readings |
| Tokens.TokenStore.Delete | token.go:195-212 | removes the token; a missing one is an error and broadcasts the store |
| Tokens.TokenStore.Sweep | token.go:107-122 | removes only tokens not yet issued or expired by the readings, keeps only tokens issued and alive by them, and sends nothing |
| Tokens.SweepIsTransparent | token.go:108-122 | a sweep changes no later answer for tokens issued before it began |
| Tokens.SweepUnnoticedExactly | token.go:108-122 | a sweep changes no later answer if and only if every token it removed was dead from its end on |
| Tokens.SweepsUnnoticedExactly | token.go:113 | for a store and a time span: no sweep with clock readings in it changes a later answer if and only if every token with an issue time from its start on is dead from its end on |
| Tokens.InstantSweepUnnoticedExactly | token.go:113 | for a sweep with a single clock reading: if and only if no token with an issue time at or after it has a lifetime |
| TokenCluster.ValidTokensWereIssued | token.go:165-178 | on any network, a successful validation is backed by an earlier issue of that token to that user and kind, within its lifetime |
| TokenCluster.IssuedTokensAreValid | token.go:165-178 | and an issued token is valid at its issuer from its issue to the end of its lifetime, for its user and kind and nobody else, unless the node removes it or installs a store without it |
| TokenCluster.JoinedNodesCanIssue | token.go:27-39 | a node that joins starts with an empty store and can issue at once |
| TokenCluster.BroadcastsCanReachOthers | token.go:247-266 | an issue, or the deletion of a missing token, broadcasts the whole store, which can replace that of any node at any later time |
| TokenCluster.RemovedTokensAreInvalid | token.go:195-212 | a removed token is not valid at the node again unless it is issued anew or comes back in another node's store |
| TokenCluster.PeersHoldSnapshots | token.go:136-150 | with one issuer and ordered links a peer's store is empty or a broadcast snapshot minus its own sweeps, the later snapshots still to come |
| TokenCluster.SnapshotsComeInOrder | token.go:247-266 | a peer never goes back to an earlier snapshot |
| TokenCluster.CaughtUpPeersKnowLiveTokens | token.go:247-266 | a caught-up peer knows every token the issuer holds, save those it swept itself |
| TokenCluster.BroadcastsReachPeers | token.go:247-266 | peers that have worked off a broadcast hold the issuer's very store, save what they swept themselves |
| TokenRaces.KeepsOwnExactly | token.go:136-150 | over ordered links, nodes hold the tokens they issued and did not remove in all runs if and only if no two nodes broadcast |
| TokenRaces.CrossedIssuesLoseTokens | token.go:136-150 | two nodes issue a token each at the same time, and one loses its own |
| TokenRaces.RemovedStaysAway | token.go:107-122 | what is removed at a node stays away until it is issued there again or comes back in a broadcast |
| TokenRaces.SettledIssuersKeepTokens | token.go:247-266 | if every broadcast waits for the one before to have reached everybody, any number of nodes may issue: nobody loses its own tokens, and in quiet states all nodes hold all tokens, save those removed |

## Left out

- Updates.PutSucceedsExactly: the database's limits on the length of keys and values are not modelled.
- KV.KV.GetKeys: a bucket name that is missing under an existing parent makes the code fail on a nil bucket, and is excluded by a precondition. The one caller passes an empty path or one with a trailing slash (api.go:185-187), where the precondition always holds.
- KV.KV.Unlock: a call that panics in the code is excluded by the precondition `Allowed`; the crash of a node by a received lock deletion is part of `Broadcast`. The list of locks is a value, not a slice shifted in place.
- KV.KV.Lock: reads and writes in one step, although the code uses two transactions; a concurrent write in between is not modelled.
- KV.KV.WorkOff: takes the queue as given instead of waiting on a channel, and leaves lock updates to `HandleUpdate`.
- Replication.DrainedPeersEqualWriter: holds for covered peers only; for others it can fail (`JoinGaps.CoverageIsExact`).
- Replication.InvStep: a sync that fails, and then lets the node start with its own tree, is not modelled, and neither is one answered by a node that is itself still starting. Commit and emission of the writer are one step; `BatchBroadcast` has them apart, for the queries of one batch.
- Mesh.NodesAgree: nodes neither join nor lose messages there; joining is the subject of `Replication` and `JoinGaps`, which have one writer.
- MeshExact.AgreementIsExact: with two nodes the condition is sufficient and not claimed to be necessary, because there a put that only goes through after a deletion by the other node always follows that deletion.
- Replay.SnapshotJoin: a sync copies the tree in one step; reading the live database file while it changes is not modelled.
- Cluster.Cluster.SendSync: the measuring of distances, by which the neighbour is chosen, and the contents of sync messages are parameters; in `Replication` the neighbour may be any node at work.
- Cluster.Cluster.Emit: called by one goroutine at a time; two racing calls could use the same epoch.
- Api.API.MultiQuery: runs alone; other clients and received updates between its steps are not modelled. Reading and parsing the request body, and the random id of the response, are left out.
- Batch.DisjointBatchIgnoresSchedule: error texts are stand-ins for those of the libraries, and verbs are folded to upper case for ASCII letters only.
- Agreement of conflicting writes from several nodes: the code has no ordering rule, and `MeshExact.AgreementIsExact` shows that it does not hold.
- The root bucket `_system`: the program stores nothing in it. Every handler and every received update works on `kv`; only a lock deletion names a root bucket of its own, which `KV.KV.Unlock` and `Operations.Allowed` take into account.
- Bounded channels: the queues for updates and tokens hold 4096 messages, the model's hold any number.
- JSON encoding, sealing and encryption: values and messages are data, their encoding rests on libraries.
- HTTP routing and the two read-only path handlers (api.go:173-215), plugins, metrics, logging, discovery, TLS and the readiness loop of the cluster: plumbing and library calls.
- Unlocked reads of the token map, and looking a token up by user (token.go:181-192): every token operation is one step.
