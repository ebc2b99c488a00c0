/**
 * What a single query means, in terms of its text and of what is stored at its key: which verbs there are, what each
 * stores, removes, answers and broadcasts, and how queries follow one another.
 */
module Queries {
  import opened Types
  import opened Paths
  import opened Tree
  import opened Updates
  import opened FlatStore
  import opened Batch

  /** `text` is the lower-case `word` in any mix of cases. */
  predicate Reads(text: string, word: string) {
    && |text| == |word|
    && forall i :: 0 <= i < |word| ==>
         text[i] == word[i] || ('a' <= word[i] <= 'z' && text[i] as int == word[i] as int - 32)
  }

  lemma UpperReads(text: string, word: string, upper: string)
    requires |upper| == |word|
    requires forall i :: 0 <= i < |word| ==> 'a' <= word[i] <= 'z' && upper[i] as int == word[i] as int - 32
    ensures Upper(text) == upper <==> Reads(text, word)
  {
    if Upper(text) == upper {
      assert |text| == |word|;
      forall i | 0 <= i < |word| ensures text[i] == word[i] || text[i] as int == word[i] as int - 32 {
        assert Upper(text)[i] == upper[i];
      }
    }
    if Reads(text, word) {
      forall i | 0 <= i < |word| ensures Upper(text)[i] == upper[i] { }
    }
  }

  /** The verb is told by the text, case aside. */
  lemma VerbsByText(q: Query)
    ensures VerbOf(q) == Get <==> Reads(q.verb, "get")
    ensures VerbOf(q) == Post <==> Reads(q.verb, "put") || Reads(q.verb, "post")
    ensures VerbOf(q) == Delete <==> Reads(q.verb, "delete")
    ensures VerbOf(q) == Invalid <==>
            !Reads(q.verb, "get") && !Reads(q.verb, "put") && !Reads(q.verb, "post") && !Reads(q.verb, "delete")
  {
    UpperReads(q.verb, "get", "GET");
    UpperReads(q.verb, "put", "PUT");
    UpperReads(q.verb, "post", "POST");
    UpperReads(q.verb, "delete", "DELETE");
    var v := Upper(q.verb);
    assert v == "GET" ==> |v| == 3 && v[0] == 'G';
    assert v == "PUT" ==> |v| == 3 && v[0] == 'P';
    assert v == "POST" ==> |v| == 4;
    assert v == "DELETE" ==> |v| == 6;
  }

  /** Reading changes and broadcasts nothing, and answers with the stored text, sealed or not. */
  lemma GetQuery(t: Tree, q: Query, d: Draw)
    requires Reads(q.verb, "get")
    ensures TreeAfter(t, q, d) == t && Out(t, q, d) == []
    ensures var e := At(t, q.key);
            && (e.Stored? && e.obj.data != "" ==> Reply(t, q, d) == q.(value := e.obj.data))
            && (e.Stored? && e.obj.data == "" ==>
                  Reply(t, q, d) == q.(error := "Key " + q.key + " does not exist"))
            && (!e.Stored? ==> Reply(t, q, d) == q.(error := "unexpected end of JSON input"))
  {
    VerbsByText(q);
  }

  /** Whether a put goes through: the key takes it, and a secret has a sealed form. */
  ghost predicate Stores(t: Tree, q: Query, d: Draw) {
    PutOk(t, Components(q.key)) && (q.secret ==> d.sealed.Some?)
  }

  /** The object that a put request stores. */
  function NewObject(r: Request): KVObject
    requires r.query.secret ==> r.draw.sealed.Some?
  {
    var data := if r.query.secret then r.draw.sealed.value else r.query.value;
    KVObject(r.draw.now, r.query.secret, data, [], r.draw.plain)
  }

  /**
   * A put stores and broadcasts a new object without locks, holding the sealed form of a secret, and leaves the rest
   * of the query as it came. If it cannot be stored, or not be sealed, nothing is stored and nothing is broadcast.
   */
  lemma PutQuery(t: Tree, q: Query, d: Draw)
    requires t.Bucket? && (Reads(q.verb, "put") || Reads(q.verb, "post"))
    ensures Stores(t, q, d) ==>
              var obj := KVObject(d.now, q.secret, if q.secret then d.sealed.value else q.value, [], d.plain);
              && At(TreeAfter(t, q, d), q.key) == Stored(obj)
              && TreeAfter(t, q, d) == Apply(t, PutKey(q.key, obj))
              && Out(t, q, d) == [PutKey(q.key, obj)]
              && Reply(t, q, d) == q
    ensures !Stores(t, q, d) ==>
              && TreeAfter(t, q, d) == t && Out(t, q, d) == []
              && Reply(t, q, d).error != "" && Reply(t, q, d) == q.(error := Reply(t, q, d).error)
  {
    VerbsByText(q);
    PutSucceedsExactly(t, Components(q.key));
    if Write(q, d).Some? { LookApply(t, Write(q, d).value, Components(q.key)); }
  }

  /** Which error a put reports: that it cannot be sealed, or else the first obstacle on its way. */
  lemma PutErrors(t: Tree, q: Query, d: Draw)
    requires t.Bucket? && (Reads(q.verb, "put") || Reads(q.verb, "post")) && !Stores(t, q, d)
    ensures var e, p := Reply(t, q, d).error, Components(q.key);
            if q.secret && d.sealed.None? then e == "cannot encrypt"
            else
              && (e == "key required" <==> PutStatus(t, p) == Err(KeyRequired))
              && (e == "bucket name required" <==> PutStatus(t, p) == Err(BucketNameRequired))
              && (e == "incompatible value" <==> PutStatus(t, p) == Err(IncompatibleValue))
              && (e == "key required" || e == "bucket name required" || e == "incompatible value")
  {
    VerbsByText(q);
    var p := Components(q.key);
    PutSucceedsExactly(t, p);
    if !(q.secret && d.sealed.None?) {
      var k := PutReportsFirstObstacle(t, p);
      assert "key required"[0] != "bucket name required"[0] && "key required"[0] != "incompatible value"[0];
      assert "bucket name required"[0] != "incompatible value"[0];
    }
  }

  /** A delete removes the object at the key and nothing else, broadcasts the deletion in any case, and never fails. */
  lemma DeleteQuery(t: Tree, q: Query, d: Draw)
    requires Reads(q.verb, "delete")
    ensures !At(TreeAfter(t, q, d), q.key).Stored?
    ensures forall k :: k != q.key ==> At(TreeAfter(t, q, d), k) == At(t, k)
    ensures Out(t, q, d) == [DeleteKey(q.key)]
    ensures Reply(t, q, d) == q
  {
    VerbsByText(q);
    LookApply(t, DeleteKey(q.key), Components(q.key));
    forall k | k != q.key ensures At(TreeAfter(t, q, d), k) == At(t, k) { DeleteAt(t, DeleteKey(q.key), k); }
  }

  /** Any other verb changes and broadcasts nothing, and is an error. */
  lemma UnknownQuery(t: Tree, q: Query, d: Draw)
    requires !Reads(q.verb, "get") && !Reads(q.verb, "put") && !Reads(q.verb, "post") && !Reads(q.verb, "delete")
    ensures TreeAfter(t, q, d) == t && Out(t, q, d) == []
    ensures Reply(t, q, d) == q.(error := "Verb " + q.verb + " is not a valid operation")
  {
    VerbsByText(q);
  }

  /** What was put can be read back, unless it is empty; a put that fails changes no answer. */
  lemma ReadYourWrites(t: Tree, q: Query, d: Draw, g: Query, dg: Draw)
    requires t.Bucket? && (Reads(q.verb, "put") || Reads(q.verb, "post")) && Reads(g.verb, "get") && g.key == q.key
    ensures Stores(t, q, d) ==>
              var data := if q.secret then d.sealed.value else q.value;
              Reply(TreeAfter(t, q, d), g, dg)
              == if data == "" then g.(error := "Key " + g.key + " does not exist") else g.(value := data)
    ensures !Stores(t, q, d) ==> Reply(TreeAfter(t, q, d), g, dg) == Reply(t, g, dg)
  {
    PutQuery(t, q, d);
    GetQuery(TreeAfter(t, q, d), g, dg);
  }

  /** After a delete a get finds no object, whether or not there was one. */
  lemma DeletedIsGone(t: Tree, q: Query, d: Draw, g: Query, dg: Draw)
    requires Reads(q.verb, "delete") && Reads(g.verb, "get") && g.key == q.key
    ensures Reply(TreeAfter(t, q, d), g, dg) == g.(error := "unexpected end of JSON input")
  {
    DeleteQuery(t, q, d);
    VerbsByText(g);
  }

  /**
   * A put that stores its value leaves the query's error field as it came, and one that fails changes nothing and fills
   * the field. The field is part of the request, so a put that went through can carry an error too.
   */
  lemma FailedPutIsReported(t: Tree, q: Query, d: Draw)
    requires t.Bucket? && (Reads(q.verb, "put") || Reads(q.verb, "post"))
    ensures Stores(t, q, d) ==> Reply(t, q, d) == q
    ensures !Stores(t, q, d) ==> Reply(t, q, d).error != "" && TreeAfter(t, q, d) == t
    ensures Reply(t, q, d).error == "" <==> Stores(t, q, d) && q.error == ""
  {
    PutQuery(t, q, d);
  }
}
