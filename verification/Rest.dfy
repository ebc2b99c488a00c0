/** The path handlers of the HTTP interface, and what no run of requests can do. */
module Rest {
  import opened Types
  import opened Paths
  import opened Tree
  import opened Updates
  import opened FlatStore
  import opened Enumeration
  import opened Batch

  /** A delete request: with a trailing slash first a bucket deletion, and then a key deletion in any case. */
  ghost function AfterDelete(t: Tree, path: string): Tree {
    var t' := if EndsInSlash(path) then Apply(t, DeleteBucket(path)) else t;
    Apply(t', DeleteKey(path))
  }

  /** A path ends in a slash exactly when it is some path followed by one. */
  lemma EndsInSlashExactly(path: string)
    ensures EndsInSlash(path) <==> exists dir :: path == dir + "/"
  {
    if EndsInSlash(path) { assert path == path[..|path| - 1] + "/"; }
  }

  /**
   * A delete request changes the store exactly when an object is stored at its path; it removes that object and
   * nothing else, and never a bucket.
   */
  lemma DeleteRequestExactly(t: Tree, path: string)
    requires WellFormed(t)
    ensures AfterDelete(t, path) != t <==> At(t, path).Stored?
    ensures View(AfterDelete(t, path)).buckets == View(t).buckets
    ensures View(AfterDelete(t, path)).values == View(t).values - {path}
  {
    if EndsInSlash(path) {
      EndsInSlashExactly(path);
      var dir :| path == dir + "/";
      TrailingSlashDeletesNothing(t, dir);
    }
    var u := DeleteKey(path);
    assert AfterDelete(t, path) == Apply(t, u);
    TreeRefinesFlat(t, u);
    assert View(Apply(t, u)).values == View(t).values - {path};
    LookApply(t, u, Components(path));
  }

  /** A request: a path deletion, or a query, alone or as part of a batch; a path put is a put query. */
  datatype Call = Remove(path: string) | Ask(query: Query, draw: Draw)

  ghost function AfterCall(t: Tree, c: Call): Tree {
    match c
    case Remove(path) => AfterDelete(t, path)
    case Ask(query, draw) => TreeAfter(t, query, draw)
  }

  ghost function AfterCalls(t: Tree, cs: seq<Call>): Tree
    decreases |cs|
  {
    if cs == [] then t else AfterCalls(AfterCall(t, cs[0]), cs[1..])
  }

  lemma CallKeepsBuckets(t: Tree, c: Call)
    requires WellFormed(t)
    ensures WellFormed(AfterCall(t, c)) && View(t).buckets <= View(AfterCall(t, c)).buckets
  {
    match c
    case Remove(path) =>
      DeleteRequestExactly(t, path);
      ApplyKeepsWellFormed(t, DeleteBucket(path));
      ApplyKeepsWellFormed(if EndsInSlash(path) then Apply(t, DeleteBucket(path)) else t, DeleteKey(path));
    case Ask(query, draw) =>
      var u := Write(query, draw);
      if u.Some? {
        ApplyKeepsWellFormed(t, u.value);
        TreeRefinesFlat(t, u.value);
      }
  }

  /** Requests are carried out one after the other; a path deletion takes the object at its path and nothing else. */
  lemma {:induction false} OneMoreCall(t: Tree, cs: seq<Call>, c: Call)
    requires WellFormed(t)
    ensures AfterCalls(t, []) == t
    ensures var before, after := AfterCalls(t, cs), AfterCalls(t, cs + [c]);
            match c
            case Remove(path) =>
              View(after).values == View(before).values - {path} && View(after).buckets == View(before).buckets
            case Ask(query, draw) => after == TreeAfter(before, query, draw)
    decreases |cs|
  {
    if cs == [] {
      assert cs + [c] == [c] && [c][1..] == [];
      assert AfterCalls(AfterCall(t, c), []) == AfterCall(t, c);
      if c.Remove? { DeleteRequestExactly(t, c.path); }
    } else {
      assert (cs + [c])[0] == cs[0] && (cs + [c])[1..] == cs[1..] + [c];
      CallKeepsBuckets(t, cs[0]);
      OneMoreCall(AfterCall(t, cs[0]), cs[1..], c);
    }
  }

  /** Over every run of requests the set of buckets only grows: a bucket, once made, is never removed. */
  lemma {:induction false} RequestsNeverRemoveBuckets(t: Tree, cs: seq<Call>)
    requires WellFormed(t)
    ensures WellFormed(AfterCalls(t, cs)) && View(t).buckets <= View(AfterCalls(t, cs)).buckets
    decreases |cs|
  {
    if cs != [] {
      CallKeepsBuckets(t, cs[0]);
      RequestsNeverRemoveBuckets(AfterCall(t, cs[0]), cs[1..]);
    }
  }
}
