/** The token store of one node: issuing, wholesale replacement, validation, and the timed sweep. */
module Tokens {
  import opened Types
  import opened Cluster

  /** Times are in nanoseconds. */
  const MINUTE: int := 60_000_000_000
  const HOUR: int := 60 * MINUTE

  /** The token drawn up at the clock reading `now`, its lifetime counted from the earlier reading `base`. */
  function NewToken(id: string, user: string, kind: string, issuer: string, expires: bool, base: int, now: int): Token {
    Token(now, base + (if expires then 60 * MINUTE else 87600 * HOUR), user, id, issuer, kind)
  }

  /** A validation reads the clock twice, first for the issue time and then for the expiry. */
  predicate ValidAt(store: TokenMap, kind: string, uid: string, tid: string, t1: int, t2: int) {
    && tid in store
    && store[tid].issueTime <= t1 && t2 < store[tid].expireTime
    && uid == store[tid].uid && kind == store[tid].kind
  }

  /** What a sweep between the clock readings `from` and `to` may have removed and must have removed. */
  ghost predicate Swept(before: TokenMap, after: TokenMap, from: int, to: int) {
    && after.Keys <= before.Keys
    && (forall id :: id in after ==> after[id] == before[id])
    && (forall id :: id in before && id !in after ==> before[id].issueTime >= from || before[id].expireTime < to)
    && (forall id :: id in after ==> before[id].issueTime < to && before[id].expireTime >= from)
  }

  ghost function Elements(ids: seq<string>): set<string> {
    set id | id in ids
  }

  class TokenStore {
    var store: TokenMap
    const cluster: Cluster
    const id: string

    constructor (cluster: Cluster, id: string)
      ensures store == map[] && this.cluster == cluster && this.id == id
    {
      store, this.cluster, this.id := map[], cluster, id;
    }

    ghost function SendingStore(): Outbox
      reads this, cluster
    {
      if cluster.dev then cluster.Sending()
      else AfterEmit(cluster.Sending(), "token", TokenPayload(store), "token:update")
    }

    /** Broadcasts the whole store. */
    method Emit()
      modifies cluster
      ensures cluster.Sending() == old(SendingStore())
      ensures if cluster.dev then cluster.Sending() == old(cluster.Sending())
              else Broadcasted(old(cluster.Sending()), cluster.Sending(), "token", TokenPayload(store), "token:update")
    {
      if cluster.dev { return; }
      cluster.Emit("token", TokenPayload(store), "token:update");
    }

    /** `token` is the random id, `base` and `now` are the clock readings. */
    method Issue(user: string, kind: string, expires: bool, token: string, base: int, now: int) returns (tok: Token)
      modifies this, cluster
      ensures tok == NewToken(token, user, kind, id, expires, base, now)
      ensures store == old(store)[token := tok] && store[token].issuedBy == id && store[token].token == token
      ensures forall t1, t2 :: ValidAt(store, kind, user, token, t1, t2) <==>
                now <= t1 && t2 < base + if expires then 3_600_000_000_000 else 315_360_000_000_000_000
      ensures if cluster.dev then cluster.Sending() == old(cluster.Sending())
              else Broadcasted(old(cluster.Sending()), cluster.Sending(), "token", TokenPayload(store), "token:update")
    {
      var e := base + 60 * MINUTE;
      if !expires { e := base + 87600 * HOUR; }
      tok := Token(now, e, user, token, id, kind);
      store := store[token := tok];
      Emit();
    }

    /** Another node's store takes the place of this one. */
    method HandleUpdate(d: TokenMap)
      modifies this`store
      ensures store == d
    {
      store := d;
    }

    method Find(tid: string) returns (tok: Option<Token>)
      ensures tok == if tid in store then Some(store[tid]) else None
    {
      tok := if tid in store then Some(store[tid]) else None;
    }

    method Validate(kind: string, uid: string, tid: string, t1: int, t2: int) returns (ok: bool)
      ensures ok == ValidAt(store, kind, uid, tid, t1, t2)
      ensures ok <==> tid in store && store[tid].issueTime <= t1 && t2 < store[tid].expireTime
                      && store[tid].uid == uid && store[tid].kind == kind
    {
      var token := Find(tid);
      if token.None? { return false; }
      var t := token.value;
      return t1 - t.issueTime >= 0 && t2 - t.expireTime < 0 && uid == t.uid && kind == t.kind;
    }

    /** Deleting a token that is not there broadcasts the store and reports an error. */
    method Delete(tid: string) returns (err: Status)
      modifies this, cluster
      ensures store == old(store) - {tid}
      ensures err == if tid in old(store) then Ok else Err(NoToken)
      ensures if tid in old(store) || cluster.dev then cluster.Sending() == old(cluster.Sending())
              else Broadcasted(old(cluster.Sending()), cluster.Sending(), "token", TokenPayload(store), "token:update")
    {
      if tid in store {
        store := store - {tid};
        return Ok;
      }
      assert store - {tid} == store;
      Emit();
      return Err(NoToken);
    }

    /**
     * The cleanup: one loop collects what looks expired or not yet issued, a second one deletes it. `clock`
     * gives the clock readings one after the other.
     */
    method Sweep(clock: nat -> int, ghost from: int, ghost to: int)
      requires forall i :: from <= clock(i) <= to
      modifies this, cluster
      ensures Swept(old(store), store, from, to)
      ensures cluster.Sending() == old(cluster.Sending())
    {
      var del: seq<string>, rest, tick: nat := [], store.Keys, 0;
      while rest != {}
        invariant rest <= store.Keys && store == old(store)
        invariant cluster.Sending() == old(cluster.Sending())
        invariant forall i, j :: 0 <= i < j < |del| ==> del[i] != del[j]
        invariant forall k :: k in del ==> k in store && k !in rest
        invariant forall k :: k in del ==> store[k].issueTime >= from || store[k].expireTime < to
        invariant forall k :: k in store && k !in rest && k !in del ==>
                                store[k].issueTime < to && store[k].expireTime >= from
      {
        var k :| k in rest;
        var v := store[k];
        assert from <= clock(tick) <= to && from <= clock(tick + 1) <= to;
        if clock(tick) - v.issueTime <= 0 || clock(tick + 1) - v.expireTime > 0 {
          del := del + [k];
        }
        tick := tick + 2;
        rest := rest - {k};
      }
      for n := 0 to |del|
        invariant store == old(store) - Elements(del[..n])
        invariant cluster.Sending() == old(cluster.Sending())
      {
        assert del[n] !in del[..n];
        assert del[n] in del;
        var _ := Delete(del[n]);
        assert del[..n + 1] == del[..n] + [del[n]];
        assert Elements(del[..n + 1]) == Elements(del[..n]) + {del[n]};
      }
      assert del[..|del|] == del;
    }
  }

  /** Sweep transparency: for a token issued before the sweep began, no later validation changes its answer. */
  lemma SweepIsTransparent(before: TokenMap, after: TokenMap, from: int, to: int,
                           kind: string, uid: string, tid: string, t1: int, t2: int)
    requires Swept(before, after, from, to)
    requires from <= to <= t1 <= t2
    requires tid in before ==> before[tid].issueTime < from
    ensures ValidAt(before, kind, uid, tid, t1, t2) <==> ValidAt(after, kind, uid, tid, t1, t2)
  {
    if tid in before && tid !in after { assert before[tid].expireTime < to; }
  }

  /** From the clock reading `to` on, no validation answers differently after a sweep than before. */
  ghost predicate Unnoticed(before: TokenMap, after: TokenMap, to: int) {
    forall kind, uid, tid, t1, t2 :: to <= t1 <= t2 ==>
      (ValidAt(before, kind, uid, tid, t1, t2) <==> ValidAt(after, kind, uid, tid, t1, t2))
  }

  /** No validation from `to` on can succeed for the token. */
  predicate DeadFrom(tok: Token, to: int) {
    tok.expireTime <= tok.issueTime || tok.expireTime <= to
  }

  /** A sweep goes unnoticed exactly when every token it removed was dead from its end on. */
  lemma SweepUnnoticedExactly(before: TokenMap, after: TokenMap, from: int, to: int)
    requires Swept(before, after, from, to)
    ensures Unnoticed(before, after, to) <==> forall id :: id in before && id !in after ==> DeadFrom(before[id], to)
  {
    if id :| id in before && id !in after && !DeadFrom(before[id], to) {
      var tok := before[id];
      var t := if tok.issueTime < to then to else tok.issueTime;
      assert ValidAt(before, tok.kind, tok.uid, id, t, t) && !ValidAt(after, tok.kind, tok.uid, id, t, t);
    }
  }

  function TokenOf(store: TokenMap, id: string): Token
    requires id in store
  {
    store[id]
  }

  /** What a sweep leaves when all its clock readings are the same. */
  function SweptAt(before: TokenMap, now: int): TokenMap {
    map id | id in before && before[id].issueTime < now && before[id].expireTime >= now :: TokenOf(before, id)
  }

  /**
   * Validation accepts a token at its very issue time, the sweep takes it for one not issued yet. So sweeps go
   * unnoticed, whatever their clock readings between `from` and `to`, exactly when every token with an issue
   * time from `from` on is dead from `to` on.
   */
  lemma SweepsUnnoticedExactly(before: TokenMap, from: int, to: int)
    requires from <= to
    ensures (forall after :: Swept(before, after, from, to) ==> Unnoticed(before, after, to))
            <==> (forall id :: id in before && before[id].issueTime >= from ==> DeadFrom(before[id], to))
  {
    if forall id :: id in before && before[id].issueTime >= from ==> DeadFrom(before[id], to) {
      forall after | Swept(before, after, from, to) ensures Unnoticed(before, after, to) {
        SweepUnnoticedExactly(before, after, from, to);
      }
    }
    if id :| id in before && before[id].issueTime >= from && !DeadFrom(before[id], to) {
      var after := SweptAt(before, from);
      assert Swept(before, after, from, to) && id !in after;
      SweepUnnoticedExactly(before, after, from, to);
    }
  }

  /** A sweep that no clock tick interrupts: no token issued at or after its instant may be alive. */
  lemma InstantSweepUnnoticedExactly(before: TokenMap, after: TokenMap, now: int)
    requires Swept(before, after, now, now)
    ensures after == SweptAt(before, now)
    ensures Unnoticed(before, after, now) <==>
            forall id :: id in before && before[id].issueTime >= now ==>
              before[id].expireTime <= before[id].issueTime
  {
    SweepUnnoticedExactly(before, after, now, now);
  }
}
