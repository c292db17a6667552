/** readcache/cache.go: the Redis keys and the Lua scripts that run on them atomically. */
module CacheServer {
  type Token = nat
  type Tag = string

  /** A generation is the caller's nonce and the position of the tag in that call. */
  datatype Gen = Gen(nonce: nat, index: nat)

  /** The value keys of Get and of GetTagged. */
  datatype Name = Plain(key: string) | Tagged(key: string, gens: seq<Gen>)

  /** A stored result: the source version its load saw, and when that load began. */
  datatype Entry = Entry(version: nat, began: nat)

  /** Values and locks live under the same name; generations have keys of their own. */
  datatype Redis = Redis(values: map<Name, Entry>, locks: map<Name, Token>)

  datatype Reply = Hit(entry: Entry) | Won | Busy

  function Acquire(r: Redis, k: Name, token: Token): (Redis, Reply) {
    if k in r.values then (r, Hit(r.values[k]))
    else if k !in r.locks then (r.(locks := r.locks[k := token]), Won)
    else (r, Busy)
  }

  predicate HoldsLock(r: Redis, k: Name, token: Token) { k in r.locks && r.locks[k] == token }

  function Publish(r: Redis, k: Name, token: Token, entry: Entry, ttl: int): (Redis, bool) {
    if !HoldsLock(r, k, token) then (r, false)
    else (r.(values := if ttl > 0 then r.values[k := entry] else r.values, locks := r.locks - {k}), true)
  }

  function Release(r: Redis, k: Name, token: Token): (Redis, bool) {
    if HoldsLock(r, k, token) then (r.(locks := r.locks - {k}), true) else (r, false)
  }

  /** Extending a lock's lifetime changes nothing else: expiry is a step of its own. */
  function Renew(r: Redis, k: Name, token: Token): (Redis, bool) { (r, HoldsLock(r, k, token)) }

  function Discard(r: Redis, k: Name, entry: Entry): Redis {
    if k in r.values && r.values[k] == entry then r.(values := r.values - {k}) else r
  }

  function Invalidate(r: Redis, k: Name): Redis { r.(values := r.values - {k}, locks := r.locks - {k}) }

  /** The first `n` tags have their generation read, or created when missing. */
  function Created(gens: map<Tag, Gen>, tags: seq<Tag>, nonce: nat, n: nat): map<Tag, Gen>
    requires n <= |tags|
  {
    if n == 0 then gens
    else
      var before := Created(gens, tags, nonce, n - 1);
      if tags[n - 1] in before then before else before[tags[n - 1] := Gen(nonce, n)]
  }

  function Renewed(gens: map<Tag, Gen>, tags: seq<Tag>, nonce: nat, n: nat): map<Tag, Gen>
    requires n <= |tags|
  {
    if n == 0 then gens else Renewed(gens, tags, nonce, n - 1)[tags[n - 1] := Gen(nonce, n)]
  }

  predicate Distinct(tags: seq<Tag>) { forall i, j | 0 <= i < j < |tags| :: tags[i] != tags[j] }

  /** The generation each tag has after the script: the one it had, or a new one of this call's. */
  function Current(gens: map<Tag, Gen>, tags: seq<Tag>, nonce: nat): seq<Gen> {
    seq(|tags|, i requires 0 <= i < |tags| => if tags[i] in gens then gens[tags[i]] else Gen(nonce, i + 1))
  }

  lemma {:induction false} CreatedAt(gens: map<Tag, Gen>, tags: seq<Tag>, nonce: nat, n: nat)
    requires Distinct(tags) && n <= |tags|
    ensures var after := Created(gens, tags, nonce, n);
      && (forall t | t in gens :: t in after && after[t] == gens[t])
      && (forall i | 0 <= i < n :: tags[i] in after && after[tags[i]] == Current(gens, tags, nonce)[i])
      && (forall t | t in after && t !in gens :: exists i | 0 <= i < n :: tags[i] == t && after[t] == Gen(nonce, i + 1))
  {
    if n > 0 {
      CreatedAt(gens, tags, nonce, n - 1);
      CreatedOne(gens, tags, nonce, n, Created(gens, tags, nonce, n - 1), Created(gens, tags, nonce, n));
    }
  }

  lemma CreatedOne(gens: map<Tag, Gen>, tags: seq<Tag>, nonce: nat, n: nat, before: map<Tag, Gen>, after: map<Tag, Gen>)
    requires Distinct(tags) && 0 < n <= |tags|
    requires after == if tags[n - 1] in before then before else before[tags[n - 1] := Gen(nonce, n)]
    requires forall t | t in gens :: t in before && before[t] == gens[t]
    requires forall i | 0 <= i < n - 1 :: tags[i] in before && before[tags[i]] == Current(gens, tags, nonce)[i]
    requires forall t | t in before && t !in gens ::
      exists i | 0 <= i < n - 1 :: tags[i] == t && before[t] == Gen(nonce, i + 1)
    ensures forall t | t in gens :: t in after && after[t] == gens[t]
    ensures forall i | 0 <= i < n :: tags[i] in after && after[tags[i]] == Current(gens, tags, nonce)[i]
    ensures forall t | t in after && t !in gens ::
      exists i | 0 <= i < n :: tags[i] == t && after[t] == Gen(nonce, i + 1)
  {
    forall u | u in after && u !in gens ensures exists i | 0 <= i < n :: tags[i] == u && after[u] == Gen(nonce, i + 1) {
      if u in before {
        var i :| 0 <= i < n - 1 && tags[i] == u && before[u] == Gen(nonce, i + 1);
        assert tags[i] == u && after[u] == Gen(nonce, i + 1);
      } else {
        assert tags[n - 1] == u;
      }
    }
  }

  lemma {:induction false} RenewedAt(gens: map<Tag, Gen>, tags: seq<Tag>, nonce: nat, n: nat)
    requires Distinct(tags) && n <= |tags|
    ensures var after := Renewed(gens, tags, nonce, n);
      && (forall i | 0 <= i < n :: tags[i] in after && after[tags[i]] == Gen(nonce, i + 1))
      && (forall t | t !in tags[..n] :: (t in after <==> t in gens) && (t in gens ==> after[t] == gens[t]))
  {
    if n > 0 {
      RenewedAt(gens, tags, nonce, n - 1);
      var before, after := Renewed(gens, tags, nonce, n - 1), Renewed(gens, tags, nonce, n);
      forall t | t !in tags[..n] ensures (t in after <==> t in gens) && (t in gens ==> after[t] == gens[t]) {
        RenewedElsewhere(before, tags, nonce, n, t);
      }
    }
  }

  lemma RenewedElsewhere(before: map<Tag, Gen>, tags: seq<Tag>, nonce: nat, n: nat, t: Tag)
    requires 0 < n <= |tags| && t !in tags[..n]
    ensures var after := before[tags[n - 1] := Gen(nonce, n)];
      (t in after <==> t in before) && (t in before ==> after[t] == before[t])
    ensures t !in tags[..n - 1]
  {
    assert tags[..n] == tags[..n - 1] + [tags[n - 1]];
  }

  /** The server the scripts run on. */
  class Server {
    var values: map<Name, Entry>
    var locks: map<Name, Token>
    var gens: map<Tag, Gen>

    function R(): Redis
      reads this
    {
      Redis(values, locks)
    }

    constructor ()
      ensures R() == Redis(map[], map[]) && gens == map[]
    {
      values, locks, gens := map[], map[], map[];
    }

    method RunAcquire(k: Name, token: Token) returns (reply: Reply)
      modifies `values, `locks
      ensures (R(), reply) == Acquire(old(R()), k, token)
      ensures values == old(values)
      ensures if k in values then reply == Hit(values[k]) && locks == old(locks)
              else if k in old(locks) then reply == Busy && locks == old(locks)
              else reply == Won && locks == old(locks)[k := token]
    {
      if k in values { return Hit(values[k]); }
      if k !in locks {
        locks := locks[k := token];
        return Won;
      }
      return Busy;
    }

    method RunPublish(k: Name, token: Token, entry: Entry, ttl: int) returns (ok: bool)
      modifies `values, `locks
      ensures (R(), ok) == Publish(old(R()), k, token, entry, ttl)
      ensures ok <==> k in old(locks) && old(locks)[k] == token
      ensures values == if ok && ttl > 0 then old(values)[k := entry] else old(values)
      ensures locks == if ok then old(locks) - {k} else old(locks)
    {
      if k !in locks || locks[k] != token { return false; }
      if ttl > 0 { values := values[k := entry]; }
      locks := locks - {k};
      return true;
    }

    method RunRelease(k: Name, token: Token) returns (ok: bool)
      modifies `values, `locks
      ensures (R(), ok) == Release(old(R()), k, token)
      ensures ok <==> k in old(locks) && old(locks)[k] == token
      ensures values == old(values) && locks == if ok then old(locks) - {k} else old(locks)
    {
      ok := k in locks && locks[k] == token;
      if ok { locks := locks - {k}; }
    }

    method RunDiscard(k: Name, entry: Entry)
      modifies `values
      ensures R() == Discard(old(R()), k, entry)
      ensures values == if k in old(values) && old(values)[k] == entry then old(values) - {k} else old(values)
    {
      if k in values && values[k] == entry { values := values - {k}; }
    }

    method RunDel(k: Name)
      modifies `values, `locks
      ensures R() == Invalidate(old(R()), k)
    {
      values := values - {k};
      locks := locks - {k};
    }

    method RunGenerations(tags: seq<Tag>, nonce: nat) returns (result: seq<Gen>)
      requires Distinct(tags)
      modifies `gens
      ensures R() == old(R()) && gens == Created(old(gens), tags, nonce, |tags|)
      ensures result == Current(old(gens), tags, nonce)
    {
      result := [];
      for i := 0 to |tags|
        invariant gens == Created(old(gens), tags, nonce, i)
        invariant |result| == i && forall j | 0 <= j < i :: result[j] == Current(old(gens), tags, nonce)[j]
      {
        if tags[i] !in gens { gens := gens[tags[i] := Gen(nonce, i + 1)]; }
        result := result + [gens[tags[i]]];
        assert gens[tags[i]] == Current(old(gens), tags, nonce)[i] by { CreatedAt(old(gens), tags, nonce, i + 1); }
      }
    }

    method RunInvalidateTags(tags: seq<Tag>, nonce: nat)
      modifies `gens
      ensures R() == old(R()) && gens == Renewed(old(gens), tags, nonce, |tags|)
    {
      for i := 0 to |tags|
        invariant gens == Renewed(old(gens), tags, nonce, i)
      {
        gens := gens[tags[i] := Gen(nonce, i + 1)];
      }
    }
  }
}
