/**
 The client's pool of one-time prekeys (clients/upm-windows/src/identity.rs:61-98). New
 identifiers and secrets are drawn at random; the draws are parameters.
 */
module Identity {
  import opened Wrappers
  import opened Crypto
  import opened Handshake

  datatype LocalOneTimePreKey = LocalOneTimePreKey(id: PreKeyId, secret: Secret)

  type Pool = seq<LocalOneTimePreKey>

  function Find(pool: Pool, id: PreKeyId): Option<Secret> {
    if pool == [] then None
    else if pool[0].id == id then Some(pool[0].secret)
    else Find(pool[1..], id)
  }

  function Remove(pool: Pool, id: PreKeyId): Pool {
    if pool == [] then []
    else if pool[0].id == id then Remove(pool[1..], id)
    else [pool[0]] + Remove(pool[1..], id)
  }

  /** Tops the pool up to `target` entries with as many of the `drawn` ones as are missing. */
  function Ensure(pool: Pool, target: nat, drawn: Pool): Pool
    requires |drawn| >= target
  {
    if |pool| < target then pool + drawn[..target - |pool|] else pool
  }

  class LocalIdentity {
    const signing: SigningKey
    const exchange: Secret
    const signedPrekey: Secret
    var oneTimePrekeys: Pool

    constructor (signing: SigningKey, exchange: Secret, signedPrekey: Secret, drawn: Pool)
      requires |drawn| == 12
      ensures this.signing == signing && this.exchange == exchange && this.signedPrekey == signedPrekey
      ensures oneTimePrekeys == drawn
    {
      this.signing, this.exchange, this.signedPrekey, oneTimePrekeys := signing, exchange, signedPrekey, drawn;
    }

    method FindOneTimePrekey(id: PreKeyId) returns (r: Option<Secret>)
      ensures r == Find(oneTimePrekeys, id)
    {
      for i := 0 to |oneTimePrekeys|
        invariant Find(oneTimePrekeys, id) == Find(oneTimePrekeys[i..], id)
      {
        if oneTimePrekeys[i].id == id {
          return Some(oneTimePrekeys[i].secret);
        }
        assert oneTimePrekeys[i..][1..] == oneTimePrekeys[i + 1..];
      }
      r := None;
    }

    method RemoveOneTimePrekey(id: PreKeyId)
      modifies this
      ensures oneTimePrekeys == Remove(old(oneTimePrekeys), id)
    {
      var kept := [];
      for i := 0 to |oneTimePrekeys|
        invariant oneTimePrekeys == old(oneTimePrekeys)
        invariant kept + Remove(oneTimePrekeys[i..], id) == Remove(oneTimePrekeys, id)
      {
        assert oneTimePrekeys[i..][0] == oneTimePrekeys[i] && oneTimePrekeys[i..][1..] == oneTimePrekeys[i + 1..];
        if oneTimePrekeys[i].id != id {
          kept := kept + [oneTimePrekeys[i]];
        }
      }
      oneTimePrekeys := kept;
    }

    method EnsureOneTimePrekeyPool(target: nat, drawn: Pool)
      requires |drawn| >= target
      modifies this
      ensures oneTimePrekeys == Ensure(old(oneTimePrekeys), target, drawn)
    {
      var missing := if target <= |oneTimePrekeys| then 0 else target - |oneTimePrekeys|;
      if missing > 0 {
        oneTimePrekeys := oneTimePrekeys + drawn[..missing];
      }
    }
  }

  /** The pool's first entry with this identifier holds this secret. */
  ghost predicate Holds(pool: Pool, id: PreKeyId, secret: Secret) {
    exists i ::
      0 <= i < |pool| && pool[i] == LocalOneTimePreKey(id, secret) && forall j :: 0 <= j < i ==> pool[j].id != id
  }

  /** The secret found is that of the first entry with the identifier. */
  lemma {:induction false} FirstEntryIsFound(pool: Pool, id: PreKeyId, i: nat)
    requires i < |pool| && pool[i].id == id && forall j :: 0 <= j < i ==> pool[j].id != id
    ensures Find(pool, id) == Some(pool[i].secret)
  {
    if i > 0 {
      assert pool[0].id != id;
      FirstEntryIsFound(pool[1..], id, i - 1);
    }
  }

  /** A search finds a secret exactly if the pool's first entry with the identifier holds it. */
  lemma FoundIffHeld(pool: Pool, id: PreKeyId, secret: Secret)
    ensures Find(pool, id) == Some(secret) <==> Holds(pool, id, secret)
  {
    if i: nat :| i < |pool| && pool[i].id == id {
      var k := FirstWith(pool, id, i);
      FirstEntryIsFound(pool, id, k);
      assert Holds(pool, id, pool[k].secret);
    } else {
      FindIff(pool, id);
    }
  }

  lemma {:induction false} FirstWith(pool: Pool, id: PreKeyId, i: nat) returns (k: nat)
    requires i < |pool| && pool[i].id == id
    ensures k < |pool| && pool[k].id == id && forall j :: 0 <= j < k ==> pool[j].id != id
  {
    k := i;
    if j: nat :| j < i && pool[j].id == id {
      k := FirstWith(pool, id, j);
    }
  }

  lemma {:induction false} FindAfterRemove(pool: Pool, gone: PreKeyId, id: PreKeyId)
    ensures Find(Remove(pool, gone), id) == if id == gone then None else Find(pool, id)
  {
    if pool != [] {
      FindAfterRemove(pool[1..], gone, id);
    }
  }

  /** Topping up never changes what an identifier already in the pool finds. */
  lemma {:induction false} FindInLonger(pool: Pool, more: Pool, id: PreKeyId)
    ensures Find(pool + more, id) == if Find(pool, id).Some? then Find(pool, id) else Find(more, id)
  {
    if pool == [] {
      assert pool + more == more;
    } else {
      FindInLonger(pool[1..], more, id);
      assert (pool + more)[1..] == pool[1..] + more;
    }
  }

  lemma {:induction false} FindIff(pool: Pool, id: PreKeyId)
    ensures Find(pool, id).Some? <==> exists i :: 0 <= i < |pool| && pool[i].id == id
  {
    if pool != [] {
      FindIff(pool[1..], id);
      if Find(pool[1..], id).Some? {
        var i :| 0 <= i < |pool[1..]| && pool[1..][i].id == id;
        assert pool[i + 1].id == id;
      }
      if i :| 0 < i < |pool| && pool[i].id == id {
        assert pool[1..][i - 1].id == id;
      }
    }
  }

  /** Use a key and top up: that key is gone, every other stays, and the pool is full again. */
  lemma UsedKeyIsReplaced(pool: Pool, used: PreKeyId, target: nat, drawn: Pool, id: PreKeyId)
    requires |drawn| >= target && forall i :: 0 <= i < |drawn| ==> drawn[i].id != used
    ensures var after := Ensure(Remove(pool, used), target, drawn);
            && Find(after, used) == None
            && (id != used && Find(pool, id).Some? ==> Find(after, id) == Find(pool, id))
            && |after| >= target
  {
    FindAfterRemove(pool, used, used);
    FindAfterRemove(pool, used, id);
    var left := Remove(pool, used);
    if |left| < target {
      FindInLonger(left, drawn[..target - |left|], used);
      FindInLonger(left, drawn[..target - |left|], id);
      FindIff(drawn[..target - |left|], used);
    }
  }
}
