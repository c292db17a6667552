/** What the read cache is for: a value published is served, a lock released can be won, and a tagged read that nothing
    disturbs returns. */
module CacheEffects {
  import opened Basics
  import opened CacheServer
  import opened CacheFlights
  import T = CacheTags

  predicate WaitsFor(w: Flights, token: Token, n: Name) {
    token in w.fills && w.fills[token] == Fill(n, Waiting)
  }

  /** Acquiring: a stored value is handed out and ends the call, a free lock is won, and otherwise the call waits. */
  lemma AcquireOutcome(w: Flights, token: Token, n: Name)
    requires WaitsFor(w, token, n)
    ensures var v := Apply(w, TryAcquire(token));
      if n in w.redis.values then
        v.redis == w.redis && v.fills == w.fills - {token} && v.results == w.results + {(n, w.redis.values[n])}
      else if n !in w.redis.locks then
        && v.redis == Redis(w.redis.values, w.redis.locks[n := token])
        && v.fills == w.fills[token := Fill(n, Locked)] && v.results == w.results
      else
        v.redis == w.redis && v.fills == w.fills && v.results == w.results
  {
  }

  /** Publishing: the holder of the lock stores its value exactly when that still has time to live, unlocks and hands it
      out; anybody else changes nothing and waits again. */
  lemma PublishOutcome(w: Flights, token: Token, ttl: int, n: Name, e: Entry)
    requires token in w.fills && w.fills[token] == Fill(n, Publishing(e))
    ensures var v := Apply(w, TryPublish(token, ttl));
      if n in w.redis.locks && w.redis.locks[n] == token then
        && v.redis.values == (if ttl > 0 then w.redis.values[n := e] else w.redis.values)
        && v.redis.locks == w.redis.locks - {n}
        && v.fills == w.fills - {token} && v.results == w.results + {(n, e)}
      else
        v.redis == w.redis && v.fills == w.fills[token := Fill(n, Waiting)] && v.results == w.results
  {
  }

  /** A load that failed: the holder's lock is free again, and the call is over. */
  lemma FailedLoadUnlocks(w: Flights, token: Token, n: Name)
    requires Can(w, FailLoad(token)) && w.fills[token].name == n
    ensures var v := Apply(w, FailLoad(token));
      && v.redis.values == w.redis.values && v.fills == w.fills - {token} && v.results == w.results
      && v.redis.locks == if n in w.redis.locks && w.redis.locks[n] == token then w.redis.locks - {n} else w.redis.locks
  {
  }

  /** Dropping a value that could not be used takes that value and no newer one. */
  lemma DropOutcome(w: Flights, token: Token, n: Name, e: Entry)
    requires WaitsFor(w, token, n)
    ensures var v := Apply(w, Drop(token, e));
      && v.redis.locks == w.redis.locks && v.fills == w.fills
      && v.redis.values
         == if n in w.redis.values && w.redis.values[n] == e then w.redis.values - {n} else w.redis.values
  {
  }

  /** What expires is gone, and nothing else. */
  lemma ExpiryForgets(w: Flights, n: Name)
    ensures var v := Apply(w, ExpireValue(n));
      && n !in v.redis.values && v.redis.locks == w.redis.locks && v.fills == w.fills
      && (forall m | m != n :: m in v.redis.values <==> m in w.redis.values)
      && (forall m | m != n && m in w.redis.values :: v.redis.values[m] == w.redis.values[m])
    ensures var v := Apply(w, ExpireLock(n));
      && n !in v.redis.locks && v.redis.values == w.redis.values && v.fills == w.fills
      && (forall m | m != n :: m in v.redis.locks <==> m in w.redis.locks)
      && (forall m | m != n && m in w.redis.locks :: v.redis.locks[m] == w.redis.locks[m])
  {
  }

  lemma {:induction false} VersionsGrow(w: Flights, steps: seq<Step>, v: Flights, n: Name)
    requires Runs(w, steps, v)
    ensures Version(w, n) <= Version(v, n)
    decreases |steps|
  {
    if steps != [] {
      StepLater(w, steps[0]);
      VersionsGrow(Apply(w, steps[0]), steps[1..], v, n);
    }
  }

  /** A load that ends after a commit to its key brings a version that the source had not reached before it. */
  lemma LoadsSeeCommits(w: Flights, key: string, steps: seq<Step>, v: Flights, token: Token)
    requires Runs(Apply(w, Commit(key)), steps, v) && Can(v, EndLoad(token)) && v.fills[token].name.key == key
    ensures var f := Apply(v, EndLoad(token)).fills;
      token in f && f[token].phase.Publishing? && Version(w, v.fills[token].name) < f[token].phase.entry.version
  {
    VersionsGrow(Apply(w, Commit(key)), steps, v, v.fills[token].name);
  }

  /** The step neither invalidates the name, nor lets its value expire, nor drops exactly this value. */
  predicate Spares(w: Flights, step: Step, n: Name, e: Entry) {
    && step != Invalidate(n) && step != ExpireValue(n)
    && !(step.Drop? && step.entry == e && step.token in w.fills && w.fills[step.token].name == n)
  }

  ghost predicate Spared(w: Flights, steps: seq<Step>, n: Name, e: Entry)
    decreases |steps|
  {
    || steps == []
    || (Can(w, steps[0]) && Spares(w, steps[0], n, e) && Spared(Apply(w, steps[0]), steps[1..], n, e))
  }

  /** While a value is stored nobody gets the lock, so nobody can replace it. */
  lemma SparedOnce(w: Flights, step: Step, n: Name, e: Entry)
    requires Can(w, step) && Spares(w, step, n, e)
    requires n in w.redis.values && w.redis.values[n] == e && n !in w.redis.locks
    ensures var r := NextRedis(w, step); n in r.values && r.values[n] == e && n !in r.locks
  {
  }

  lemma {:induction false} SparedStays(w: Flights, steps: seq<Step>, v: Flights, n: Name, e: Entry)
    requires Runs(w, steps, v) && Spared(w, steps, n, e)
    requires n in w.redis.values && w.redis.values[n] == e && n !in w.redis.locks
    ensures n in v.redis.values && v.redis.values[n] == e && n !in v.redis.locks
    decreases |steps|
  {
    if steps != [] {
      SparedOnce(w, steps[0], n, e);
      SparedStays(Apply(w, steps[0]), steps[1..], v, n, e);
    }
  }

  /** A value published while it has time to live is stored, stays stored until it is invalidated, expires or is dropped
      as unusable, and until then every read of the name returns exactly it, without loading. */
  lemma PublishedIsServed(
    w: Flights, token: Token, ttl: int, steps: seq<Step>, v: Flights, n: Name, e: Entry, reader: Token)
    requires token in w.fills && w.fills[token] == Fill(n, Publishing(e)) && ttl > 0
    requires n in w.redis.locks && w.redis.locks[n] == token
    requires Runs(Apply(w, TryPublish(token, ttl)), steps, v) && Spared(Apply(w, TryPublish(token, ttl)), steps, n, e)
    ensures n in v.redis.values && v.redis.values[n] == e
    ensures WaitsFor(v, reader, n) ==>
      var u := Apply(v, TryAcquire(reader));
      reader !in u.fills && u.results == v.results + {(n, e)} && u.redis == v.redis
  {
    PublishOutcome(w, token, ttl, n, e);
    SparedStays(Apply(w, TryPublish(token, ttl)), steps, v, n, e);
    if WaitsFor(v, reader, n) { AcquireOutcome(v, reader, n); }
  }

  // ---- tagged reads ----

  /** The step leaves the generations of these tags alone, and is not the call's own second read. */
  predicate Undisturbing(step: T.Step, call: nat, tags: seq<Tag>) {
    match step
    case InvalidateTags(cut, _) => forall t | t in cut :: t !in tags
    case ExpireGen(t) => t !in tags
    case ReadAfter(c, _) => c != call
    case _ => true
  }

  /** The call has read these generations, and they are the current ones. */
  ghost predicate Agrees(w: T.World, call: nat, tags: seq<Tag>, gens: seq<Gen>) {
    && call in w.calls && w.calls[call].tags == tags && w.calls[call].before == Some(gens) && |gens| == |tags|
    && forall i | 0 <= i < |tags| :: tags[i] in w.tags.gens && w.tags.gens[tags[i]] == gens[i]
  }

  lemma GensStay(t: T.Tags, tags: seq<Tag>, nonce: nat, now: nat, tag: Tag)
    requires Distinct(tags) && tag in t.gens
    ensures var g := T.Generated(t, tags, nonce, now).gens; tag in g && g[tag] == t.gens[tag]
    ensures var g := T.CutTags(t, tags, nonce, now).gens; tag !in tags ==> tag in g && g[tag] == t.gens[tag]
  {
    CreatedAt(t.gens, tags, nonce, |tags|);
    RenewedAt(t.gens, tags, nonce, |tags|);
    assert tags[..|tags|] == tags;
  }

  lemma AgreesOnce(w: T.World, step: T.Step, call: nat, tags: seq<Tag>, gens: seq<Gen>, i: nat)
    requires T.Inv(w) && T.Can(w, step) && Undisturbing(step, call, tags) && i < |tags|
    requires tags[i] in w.tags.gens
    ensures var g := T.NextTags(w, step).gens; tags[i] in g && g[tags[i]] == w.tags.gens[tags[i]]
  {
    var now := w.flights.clock;
    match step
    case InvalidateTags(cut, nonce) => GensStay(w.tags, cut, nonce, now, tags[i]);
    case ReadBefore(c, nonce) =>
      assert T.CallOk(w, c);
      GensStay(w.tags, w.calls[c].tags, nonce, now, tags[i]);
    case ReadAfter(c, nonce) =>
      assert T.CallOk(w, c);
      GensStay(w.tags, w.calls[c].tags, nonce, now, tags[i]);
    case _ =>
  }

  lemma AgreesNext(w: T.World, step: T.Step, call: nat, tags: seq<Tag>, gens: seq<Gen>)
    requires T.Inv(w) && T.Can(w, step) && Undisturbing(step, call, tags) && Agrees(w, call, tags, gens)
    ensures Agrees(T.Apply(w, step), call, tags, gens)
  {
    forall i | 0 <= i < |tags|
      ensures tags[i] in T.NextTags(w, step).gens && T.NextTags(w, step).gens[tags[i]] == gens[i]
    {
      AgreesOnce(w, step, call, tags, gens, i);
    }
  }

  lemma {:induction false} AgreesStays(
    w: T.World, steps: seq<T.Step>, v: T.World, call: nat, tags: seq<Tag>, gens: seq<Gen>)
    requires T.Inv(w) && T.Runs(w, steps, v) && Agrees(w, call, tags, gens)
    requires forall step | step in steps :: Undisturbing(step, call, tags)
    ensures Agrees(v, call, tags, gens)
    decreases |steps|
  {
    if steps != [] {
      assert steps[0] in steps;
      AgreesNext(w, steps[0], call, tags, gens);
      T.StepKeeps(w, steps[0]);
      forall step | step in steps[1..] ensures Undisturbing(step, call, tags) { assert step in steps; }
      AgreesStays(T.Apply(w, steps[0]), steps[1..], v, call, tags, gens);
    }
  }

  lemma FirstReadAgrees(w: T.World, call: nat, nonce: nat)
    requires T.Inv(w) && T.Can(w, T.ReadBefore(call, nonce))
    ensures var tags := w.calls[call].tags;
      Agrees(T.Apply(w, T.ReadBefore(call, nonce)), call, tags, Current(w.tags.gens, tags, nonce))
  {
    var tags := w.calls[call].tags;
    assert T.CallOk(w, call);
    CreatedAt(w.tags.gens, tags, nonce, |tags|);
  }

  lemma AgreeingReturns(v: T.World, call: nat, nonce: nat, tags: seq<Tag>, gens: seq<Gen>)
    requires Agrees(v, call, tags, gens) && T.Can(v, T.ReadAfter(call, nonce))
    ensures T.Returns(v, call, nonce) && call !in T.NextCalls(v, T.ReadAfter(call, nonce))
  {
    assert Current(v.tags.gens, tags, nonce) == gens;
  }

  lemma AgreesUntil(w: T.World, call: nat, nonce: nat, steps: seq<T.Step>, v: T.World)
    requires T.Inv(w) && T.Can(w, T.ReadBefore(call, nonce))
    requires T.Runs(T.Apply(w, T.ReadBefore(call, nonce)), steps, v)
    requires forall step | step in steps :: Undisturbing(step, call, w.calls[call].tags)
    ensures var tags := w.calls[call].tags; Agrees(v, call, tags, Current(w.tags.gens, tags, nonce))
  {
    var tags := w.calls[call].tags;
    FirstReadAgrees(w, call, nonce);
    T.StepKeeps(w, T.ReadBefore(call, nonce));
    AgreesStays(T.Apply(w, T.ReadBefore(call, nonce)), steps, v, call, tags, Current(w.tags.gens, tags, nonce));
  }

  /** Both readings of a tagged read report one generation for each tag, the one there was if there was one, and leave
      it stored. */
  lemma ReadingIsStored(before: seq<T.Step>, w: T.World, step: T.Step, i: nat)
    requires T.Runs(T.START, before, w) && T.Can(w, step) && (step.ReadBefore? || step.ReadAfter?)
    requires i < |w.calls[step.call].tags|
    ensures var tag, read, after := w.calls[step.call].tags[i],
        Current(w.tags.gens, w.calls[step.call].tags, step.nonce), T.Apply(w, step).tags.gens;
      && (tag in w.tags.gens ==> read[i] == w.tags.gens[tag])
      && tag in after && after[tag] == read[i]
  {
    T.ReachableKeeps(before, w);
    assert T.CallOk(w, step.call);
    CreatedAt(w.tags.gens, w.calls[step.call].tags, step.nonce, |w.calls[step.call].tags|);
  }

  /** A tagged read during which none of its tags is invalidated and none of their generations expires does not start
      over: its second reading agrees with the first, and the call ends. */
  lemma UndisturbedReturns(
    before: seq<T.Step>, w: T.World, call: nat, nonce: nat, steps: seq<T.Step>, v: T.World, nonce': nat)
    requires T.Runs(T.START, before, w) && T.Can(w, T.ReadBefore(call, nonce))
    requires T.Runs(T.Apply(w, T.ReadBefore(call, nonce)), steps, v) && T.Can(v, T.ReadAfter(call, nonce'))
    requires forall step | step in steps :: Undisturbing(step, call, w.calls[call].tags)
    ensures T.Returns(v, call, nonce') && call !in T.Apply(v, T.ReadAfter(call, nonce')).calls
  {
    T.ReachableKeeps(before, w);
    AgreesUntil(w, call, nonce, steps, v);
    AgreeingReturns(v, call, nonce', w.calls[call].tags, Current(w.tags.gens, w.calls[call].tags, nonce));
  }
}
