/** What a caller of the token provider gets, and what an invalidation takes away. */
module TokenEffects {
  import opened Basics
  import opened TokenProvider

  /** Every entry but that of `key` is the same in both. */
  ghost predicate OthersStay(a: map<CacheKey, Entry>, b: map<CacheKey, Entry>, key: CacheKey) {
    && (forall k | k != key :: k in a <==> k in b)
    && (forall k | k != key && k in a :: a[k] == b[k])
  }

  /** There is a token for the key that need not be refreshed yet. */
  predicate Usable(s: System, key: CacheKey) { key in s.p.cache && s.now < s.p.cache[key].refreshAt }

  // ---- asking ----

  /** A usable token is returned at once and nothing is fetched. */
  lemma UsableIsReturned(s: System, c: nat, key: CacheKey, maxEntries: nat)
    requires Linked(s.p) && Can(s, Asked(c, key), maxEntries) && Usable(s, key)
    ensures var t, e := Apply(s, Asked(c, key), maxEntries), s.p.cache[key];
      && t.returned == s.returned + {Returned(key, e.token, s.now)} && t.waiting == s.waiting
      && t.p.flights == s.p.flights && t.p.started == s.p.started
      && key in t.p.cache && t.p.cache[key] == e.(used := s.p.sequence + 1) && OthersStay(s.p.cache, t.p.cache, key)
  {
  }

  /** Without one the caller waits on the key's flight, which is opened if there is none and there is room. */
  lemma OthersWait(s: System, c: nat, key: CacheKey, maxEntries: nat)
    requires Linked(s.p) && Can(s, Asked(c, key), maxEntries) && !Usable(s, key)
    ensures var t := Apply(s, Asked(c, key), maxEntries);
      && t.returned == s.returned && key !in t.p.cache && OthersStay(s.p.cache, t.p.cache, key)
      && if key in s.p.flights then
           var f := s.p.flights[key];
           && t.p.flights == s.p.flights && t.waiting == s.waiting[c := Wait(key, f)]
           && t.p.started == s.p.started[f := s.p.started[f].(waiters := s.p.started[f].waiters + 1)]
         else if |s.p.flights| >= maxEntries then
           t.p.flights == s.p.flights && t.p.started == s.p.started && t.waiting == s.waiting
         else
           var f := |s.p.started|;
           && t.p.flights == s.p.flights[key := f] && t.waiting == s.waiting[c := Wait(key, f)]
           && t.p.started == s.p.started + [Flight(key, 1, false, None, None)]
  {
    MissIs(s, c, key, maxEntries);
    if key !in s.p.flights && |s.p.flights| < maxEntries { OpenedIs(s.p.started, key); }
  }

  lemma OpenedIs(started: seq<Flight>, key: CacheKey)
    ensures var f := |started|;
      (started + [Flight(key, 0, false, None, None)])[f := Flight(key, 1, false, None, None)]
      == started + [Flight(key, 1, false, None, None)]
  {}

  // ---- fetching ----

  /** A fetch brings its token only when it succeeded in time and somebody was still waiting; a flight that was
      cancelled or ran late has failed, whatever came back. What came back without an error was issued all the same. */
  lemma FetchOutcome(
    s: System, f: nat, token: Token, refreshAt: int, err: Option<Failure>, timedOut: bool, maxEntries: nat)
    requires Linked(s.p) && Can(s, Fetches(f, token, refreshAt, err, timedOut), maxEntries)
    ensures var t, flight := Apply(s, Fetches(f, token, refreshAt, err, timedOut), maxEntries), s.p.started[f];
      && t.issued == s.issued + (if err == None then {(flight.key, token)} else {})
      && t.p.cache == s.p.cache && t.p.flights == s.p.flights && t.returned == s.returned
      && match t.p.started[f].fetched
         case None => false
         case Some(got) =>
           && got.token == token && got.refreshAt == refreshAt
           && (got.err == None <==> err == None && !timedOut && !flight.cancelled)
           && (got.err == Some(TimedOut) || got.err == err)
  {
  }

  // ---- landing and returning ----

  /** The flight is the registered one of its key and brought a token in time. */
  predicate Succeeds(s: System, f: nat, timedOut: bool) {
    && f < |s.p.started| && s.p.started[f].key in s.p.flights && s.p.flights[s.p.started[f].key] == f
    && s.p.started[f].fetched.Some? && s.p.started[f].fetched.value.err == None
    && !s.p.started[f].cancelled && !timedOut
  }

  /** A flight that succeeds stores what it fetched; where the cache was full, `oldest` and no other entry goes. Any
      other landing leaves the cache as it is. */
  lemma LandingStores(s: System, f: nat, timedOut: bool, oldest: CacheKey, maxEntries: nat)
    requires Linked(s.p) && Can(s, Lands(f, timedOut, oldest), maxEntries)
    ensures var t, key, got := Apply(s, Lands(f, timedOut, oldest), maxEntries), s.p.started[f].key,
        s.p.started[f].fetched.value;
      && t.p.started[f].done == Some(if got.err == None then Ok(got.token) else Err(got.err.value))
      && if Succeeds(s, f, timedOut) then
           && key in t.p.cache && t.p.cache[key] == Entry(got.token, got.refreshAt, s.p.sequence + 1)
           && key !in t.p.flights
           && (forall k | k != key && (|s.p.cache| < maxEntries || k != oldest) ::
                 k in s.p.cache <==> k in t.p.cache)
           && (forall k | k != key && k in t.p.cache :: k in s.p.cache && t.p.cache[k] == s.p.cache[k])
           && (|s.p.cache| >= maxEntries && oldest != key ==> oldest !in t.p.cache)
         else t.p.cache == s.p.cache
  {
  }

  /** A caller that waited to the end is given the token its flight brought, if it is still good. */
  lemma WaiterIsServed(s: System, c: nat, maxEntries: nat)
    requires Linked(s.p) && Can(s, Finished(c, false), maxEntries)
    ensures var t, w, done := Apply(s, Finished(c, false), maxEntries), s.waiting[c],
        s.p.started[s.waiting[c].flight].done.value;
      && c !in t.waiting
      && t.returned == if done.Ok? && s.now < done.value.expiresAt
                       then s.returned + {Returned(w.key, done.value, s.now)} else s.returned
  {
  }

  // ---- invalidating ----

  /** An invalidation removes the entry of its key when that holds the rejected token, and nothing else: not a newer
      token, no other key's, no flight and no caller. */
  lemma InvalidateTakesTheRejected(s: System, key: CacheKey, rejected: string, maxEntries: nat)
    requires Linked(s.p)
    ensures var t := Apply(s, Invalidates(key, rejected), maxEntries);
      && t == s.(p := s.p.(cache := t.p.cache)) && OthersStay(s.p.cache, t.p.cache, key)
      && (rejected != "" ==> !(key in t.p.cache && t.p.cache[key].token.value == rejected))
      && (key in s.p.cache && (rejected == "" || s.p.cache[key].token.value != rejected) ==>
            key in t.p.cache && t.p.cache[key] == s.p.cache[key])
      && (key !in s.p.cache ==> key !in t.p.cache)
  {
  }

  /** Once the one entry with a token is invalidated and no flight under way brings it, no caller that asks later is
      returned it, however long the provider runs, unless it is issued anew. */
  lemma InvalidatedIsNotReturned(
    s: System, key: CacheKey, value: string, steps: seq<Step>, t: System, c: nat, k: CacheKey, maxEntries: nat)
    requires Linked(s.p) && value != "" && FlightsOut(s.p.started, value)
    requires forall k | k in s.p.cache && k != key :: s.p.cache[k].token.value != value
    requires Runs(Apply(s, Invalidates(key, value), maxEntries), steps, t, maxEntries)
    requires forall step | step in steps :: step.Fetches? ==> step.token.value != value
    requires Linked(t.p) && Can(t, Asked(c, k), maxEntries)
    ensures forall r | r in Apply(t, Asked(c, k), maxEntries).returned - t.returned :: r.token.value != value
  {
    var next := Apply(s, Invalidates(key, value), maxEntries);
    InvalidateTakesTheRejected(s, key, value, maxEntries);
    assert OutOf(next.p, value);
    RejectedStaysOut(next, steps, t, value, maxEntries);
    if Usable(t, k) { UsableIsReturned(t, c, k, maxEntries); } else { OthersWait(t, c, k, maxEntries); }
  }

  // ---- a token is served until it must go ----

  predicate Holds(s: System, key: CacheKey, token: Token, refreshAt: int) {
    key in s.p.cache && s.p.cache[key].token == token && s.p.cache[key].refreshAt == refreshAt
  }

  /** The step does not reject the token and does not make room by it. */
  predicate Spares(s: System, step: Step, key: CacheKey, token: Token, maxEntries: nat) {
    && step != Invalidates(key, token.value)
    && !(step.Lands? && step.oldest == key && |s.p.cache| >= maxEntries && Succeeds(s, step.flight, step.timedOut))
  }

  ghost predicate Spared(s: System, steps: seq<Step>, key: CacheKey, token: Token, maxEntries: nat)
    decreases |steps|
  {
    || steps == []
    || (&& Linked(s.p) && Can(s, steps[0], maxEntries) && Spares(s, steps[0], key, token, maxEntries)
        && Spared(Apply(s, steps[0], maxEntries), steps[1..], key, token, maxEntries))
  }

  lemma HeldOnce(s: System, step: Step, key: CacheKey, token: Token, refreshAt: int, maxEntries: nat)
    requires Linked(s.p) && Can(s, step, maxEntries) && Spares(s, step, key, token, maxEntries)
    requires Holds(s, key, token, refreshAt) && key !in s.p.flights && s.now < refreshAt
    ensures Holds(Apply(s, step, maxEntries), key, token, refreshAt)
    ensures s.now <= Apply(s, step, maxEntries).now
  {
    match step
    case Asked(c, k) =>
      if Usable(s, k) { UsableIsReturned(s, c, k, maxEntries); } else { OthersWait(s, c, k, maxEntries); }
    case Lands(f, timedOut, oldest) => LandingStores(s, f, timedOut, oldest, maxEntries);
    case Invalidates(k, rejected) => InvalidateTakesTheRejected(s, k, rejected, maxEntries);
    case _ =>
  }

  lemma {:induction false} TimePasses(s: System, steps: seq<Step>, t: System, maxEntries: nat)
    requires Runs(s, steps, t, maxEntries)
    ensures s.now <= t.now
    decreases |steps|
  {
    if steps != [] { TimePasses(Apply(s, steps[0], maxEntries), steps[1..], t, maxEntries); }
  }

  lemma {:induction false} HeldThroughout(
    s: System, steps: seq<Step>, t: System, key: CacheKey, token: Token, refreshAt: int, maxEntries: nat)
    requires Inv(s, maxEntries) && maxEntries > 0 && Runs(s, steps, t, maxEntries)
    requires Spared(s, steps, key, token, maxEntries) && Holds(s, key, token, refreshAt) && t.now < refreshAt
    ensures Holds(t, key, token, refreshAt)
    decreases |steps|
  {
    if steps != [] {
      var next := Apply(s, steps[0], maxEntries);
      TimePasses(s, steps, t, maxEntries);
      StampIsLastUse(s.p.cache, s.p.flights, s.uses, s.issued, key);
      HeldOnce(s, steps[0], key, token, refreshAt, maxEntries);
      StepKeeps(s, steps[0], maxEntries);
      HeldThroughout(next, steps[1..], t, key, token, refreshAt, maxEntries);
    }
  }

  /** A token fetched in time is returned to everybody who asks for its key, without another fetch, until it is due for
      refresh, unless it is rejected or makes room for another first. */
  lemma FetchedIsServed(
    before: seq<Step>, s: System, f: nat, oldest: CacheKey, steps: seq<Step>, t: System, c: nat, maxEntries: nat)
    requires Runs(START, before, s, maxEntries) && maxEntries > 0 && Linked(s.p)
    requires Can(s, Lands(f, false, oldest), maxEntries) && Succeeds(s, f, false)
    requires var next := Apply(s, Lands(f, false, oldest), maxEntries);
      && Runs(next, steps, t, maxEntries)
      && Spared(next, steps, s.p.started[f].key, s.p.started[f].fetched.value.token, maxEntries)
    requires var key := s.p.started[f].key;
      t.now < s.p.started[f].fetched.value.refreshAt && Linked(t.p) && Can(t, Asked(c, key), maxEntries)
    ensures var key, token := s.p.started[f].key, s.p.started[f].fetched.value.token;
      var u := Apply(t, Asked(c, key), maxEntries);
      && u.returned == t.returned + {Returned(key, token, t.now)}
      && u.p.started == t.p.started && u.p.flights == t.p.flights
  {
    var key, got := s.p.started[f].key, s.p.started[f].fetched.value;
    var next := Apply(s, Lands(f, false, oldest), maxEntries);
    RunKeeps(START, before, s, maxEntries);
    StepKeeps(s, Lands(f, false, oldest), maxEntries);
    LandingStores(s, f, false, oldest, maxEntries);
    HeldThroughout(next, steps, t, key, got.token, got.refreshAt, maxEntries);
    UsableIsReturned(t, c, key, maxEntries);
  }
}
