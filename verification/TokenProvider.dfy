/** integrationoauth/provider.go: a bounded cache of tokens with one cancellable acquisition per key. A step is what
    happens under the provider's mutex, the end of a fetch, or the return of a caller. */
module TokenProvider {
  import opened Basics

  datatype CacheKey = CacheKey(project: string, installation: string, audience: string, scopes: string, kind: string)

  datatype Token = Token(value: string, expiresAt: int, scope: string)

  /** The tokens fetched, each with the key it was fetched for. */
  type Issued = set<(CacheKey, Token)>

  datatype Entry = Entry(token: Token, refreshAt: int, used: nat)

  datatype Failure = TimedOut | NotFetched(code: string)

  /** What fetch returned. */
  datatype Fetched = Fetched(token: Token, refreshAt: int, err: Option<Failure>)

  datatype Flight = Flight(
    key: CacheKey, waiters: int, cancelled: bool, fetched: Option<Fetched>, done: Option<Result<Token, Failure>>)

  /** The provider; every flight ever started keeps its number. */
  datatype Provided = Provided(
    cache: map<CacheKey, Entry>, flights: map<CacheKey, nat>, sequence: nat, started: seq<Flight>)

  datatype Wait = Wait(key: CacheKey, flight: nat)

  datatype Returned = Returned(key: CacheKey, token: Token, at: int)

  /** The provider among its callers. `uses` lists the keys in the order in which the cache was used, `issued` has every
      token fetched with the key it was fetched for, and `returned` every token a caller was given. */
  datatype System = System(
    p: Provided, now: int, waiting: map<nat, Wait>, uses: seq<CacheKey>, issued: Issued, returned: set<Returned>)

  const EMPTY := Provided(map[], map[], 0, [])

  // ---- the critical sections ----

  datatype Start = Hit(token: Token) | Full | Joined(flight: nat)

  predicate Fresh(p: Provided, key: CacheKey, now: int) { key in p.cache && now < p.cache[key].refreshAt }

  function Use(p: Provided, key: CacheKey): Provided
    requires key in p.cache
  {
    p.(sequence := p.sequence + 1, cache := p.cache[key := p.cache[key].(used := p.sequence + 1)])
  }

  function Join(p: Provided, f: nat): Provided
    requires f < |p.started|
  {
    p.(started := p.started[f := p.started[f].(waiters := p.started[f].waiters + 1)])
  }

  function Open(p: Provided, key: CacheKey): Provided {
    p.(flights := p.flights[key := |p.started|], started := p.started + [Flight(key, 0, false, None, None)])
  }

  function TokenStart(p: Provided, key: CacheKey, now: int, maxEntries: nat): (Provided, Start)
    requires key in p.flights ==> p.flights[key] < |p.started|
  {
    if Fresh(p, key, now) then (Use(p, key), Hit(p.cache[key].token))
    else
      var q := p.(cache := p.cache - {key});
      if key in q.flights then (Join(q, q.flights[key]), Joined(q.flights[key]))
      else if |q.flights| >= maxEntries then (q, Full)
      else (Join(Open(q, key), |q.started|), Joined(|q.started|))
  }

  predicate Registered(started: seq<Flight>, flights: map<CacheKey, nat>, f: nat) {
    f < |started| && started[f].key in flights && flights[started[f].key] == f
  }

  /** A caller gives up; the last one to do so cancels the flight. */
  function TokenLeave(p: Provided, f: nat): Provided
    requires f < |p.started|
  {
    var flight := p.started[f].(waiters := p.started[f].waiters - 1);
    if flight.waiters == 0 && Registered(p.started, p.flights, f) then
      p.(started := p.started[f := flight.(cancelled := true)], flights := p.flights - {flight.key})
    else p.(started := p.started[f := flight])
  }

  predicate IsOldest(cache: map<CacheKey, Entry>, key: CacheKey) {
    key in cache && forall k | k in cache :: cache[key].used <= cache[k].used
  }

  /** The entry is stored, and when the cache is full the entry `oldest` makes room for it. */
  function Store(
    p: Provided, key: CacheKey, token: Token, refreshAt: int, oldest: CacheKey, maxEntries: nat): Provided
  {
    var cache := if |p.cache| >= maxEntries then p.cache - {oldest} else p.cache;
    p.(cache := cache[key := Entry(token, refreshAt, p.sequence + 1)], sequence := p.sequence + 1)
  }

  /** Whether the landing flight stores its token. */
  predicate Stores(p: Provided, f: nat, timedOut: bool)
    requires f < |p.started| && p.started[f].fetched.Some?
  {
    && Registered(p.started, p.flights, f)
    && p.started[f].fetched.value.err == None && !p.started[f].cancelled && !timedOut
  }

  /** The end of acquire. */
  function Land(p: Provided, f: nat, timedOut: bool, oldest: CacheKey, maxEntries: nat): Provided
    requires f < |p.started| && p.started[f].fetched.Some?
  {
    var flight, got := p.started[f], p.started[f].fetched.value;
    var q := if Registered(p.started, p.flights, f) then
        var r := p.(flights := p.flights - {flight.key});
        if got.err == None && !flight.cancelled && !timedOut
        then Store(r, flight.key, got.token, got.refreshAt, oldest, maxEntries) else r
      else p;
    q.(started := q.started[f := flight.(done := Some(if got.err.Some? then Err(got.err.value) else Ok(got.token)))])
  }

  function Without(p: Provided, key: CacheKey, rejected: string): Provided {
    if rejected != "" && key in p.cache && p.cache[key].token.value == rejected then p.(cache := p.cache - {key}) else p
  }

  // ---- steps ----

  datatype Step =
    | Asked(caller: nat, key: CacheKey)
    | Left(caller: nat)
    | Finished(caller: nat, cancelled: bool)
    | Fetches(flight: nat, token: Token, refreshAt: int, err: Option<Failure>, timedOut: bool)
    | Lands(flight: nat, timedOut: bool, oldest: CacheKey)
    | Invalidates(key: CacheKey, rejected: string)
    | Ticks(now: int)

  /** fetch gives a token that has not expired, to be refreshed no later than it expires (see RefreshedInTime). */
  predicate Can(s: System, step: Step, maxEntries: nat) {
    match step
    case Asked(c, _) => c !in s.waiting
    case Left(c) => c in s.waiting && s.waiting[c].flight < |s.p.started|
    case Finished(c, _) =>
      c in s.waiting && s.waiting[c].flight < |s.p.started| && s.p.started[s.waiting[c].flight].done.Some?
    case Fetches(f, token, refreshAt, err, _) =>
      && f < |s.p.started| && s.p.started[f].fetched == None && s.p.started[f].done == None
      && (err == None ==> s.now < token.expiresAt && refreshAt <= token.expiresAt)
    case Lands(f, timedOut, oldest) =>
      && f < |s.p.started| && s.p.started[f].fetched.Some? && s.p.started[f].done == None
      && (Stores(s.p, f, timedOut) && |s.p.cache| >= maxEntries ==> IsOldest(s.p.cache, oldest))
    case Invalidates(_, _) => true
    case Ticks(now) => s.now <= now
  }

  function Ask(s: System, c: nat, key: CacheKey, maxEntries: nat): System
    requires key in s.p.flights ==> s.p.flights[key] < |s.p.started|
  {
    var (q, start) := TokenStart(s.p, key, s.now, maxEntries);
    match start
    case Hit(token) => s.(p := q, uses := s.uses + [key], returned := s.returned + {Returned(key, token, s.now)})
    case Full => s.(p := q)
    case Joined(f) => s.(p := q, waiting := s.waiting[c := Wait(key, f)])
  }

  function Finish(s: System, c: nat, cancelled: bool): System
    requires c in s.waiting && s.waiting[c].flight < |s.p.started| && s.p.started[s.waiting[c].flight].done.Some?
  {
    var done := s.p.started[s.waiting[c].flight].done.value;
    var r := if !cancelled && done.Ok? && s.now < done.value.expiresAt
      then {Returned(s.waiting[c].key, done.value, s.now)} else {};
    s.(waiting := s.waiting - {c}, returned := s.returned + r)
  }

  function Fetch(s: System, f: nat, token: Token, refreshAt: int, err: Option<Failure>, timedOut: bool): System
    requires f < |s.p.started|
  {
    var flight := s.p.started[f];
    var problem := if flight.cancelled || timedOut then Some(TimedOut) else err;
    s.(p := s.p.(started := s.p.started[f := flight.(fetched := Some(Fetched(token, refreshAt, problem)))]),
       issued := if err == None then s.issued + {(flight.key, token)} else s.issued)
  }

  function Landing(s: System, f: nat, timedOut: bool, oldest: CacheKey, maxEntries: nat): System
    requires f < |s.p.started| && s.p.started[f].fetched.Some?
  {
    s.(p := Land(s.p, f, timedOut, oldest, maxEntries),
       uses := if Stores(s.p, f, timedOut) then s.uses + [s.p.started[f].key] else s.uses)
  }

  function Apply(s: System, step: Step, maxEntries: nat): System
    requires Can(s, step, maxEntries) && forall k | k in s.p.flights :: s.p.flights[k] < |s.p.started|
  {
    match step
    case Asked(c, key) => Ask(s, c, key, maxEntries)
    case Left(c) => s.(p := TokenLeave(s.p, s.waiting[c].flight), waiting := s.waiting - {c})
    case Finished(c, cancelled) => Finish(s, c, cancelled)
    case Fetches(f, token, refreshAt, err, timedOut) => Fetch(s, f, token, refreshAt, err, timedOut)
    case Lands(f, timedOut, oldest) => Landing(s, f, timedOut, oldest, maxEntries)
    case Invalidates(key, rejected) => s.(p := Without(s.p, key, rejected))
    case Ticks(now) => s.(now := now)
  }

  // ---- what always holds ----

  function Waiters(waiting: map<nat, Wait>, f: nat): set<nat> { set c | c in waiting && waiting[c].flight == f }

  /** A registered flight is live and has exactly as many waiters as there are callers waiting on it; any other has
      ended. A flight is cancelled only when nobody waits on it. */
  ghost predicate FlightHolds(started: seq<Flight>, flights: map<CacheKey, nat>, waiting: map<nat, Wait>, f: nat)
    requires f < |started|
  {
    var flight, live := started[f], Registered(started, flights, f);
    && (live ==> !flight.cancelled && flight.done == None && flight.waiters == |Waiters(waiting, f)| >= 1)
    && (live || flight.cancelled || flight.done.Some?)
    && (flight.cancelled ==> Waiters(waiting, f) == {})
  }

  ghost predicate FlightsHold(started: seq<Flight>, flights: map<CacheKey, nat>, waiting: map<nat, Wait>) {
    && (forall f | 0 <= f < |started| :: FlightHolds(started, flights, waiting, f))
    && (forall k | k in flights :: flights[k] < |started| && started[flights[k]].key == k)
    && (forall c | c in waiting :: waiting[c].flight < |started| && started[waiting[c].flight].key == waiting[c].key)
  }

  /** What a flight brought was issued for its key. */
  ghost predicate Brought(flight: Flight, issued: Issued) {
    && (flight.fetched.Some? && flight.fetched.value.err == None ==>
          && (flight.key, flight.fetched.value.token) in issued
          && flight.fetched.value.refreshAt <= flight.fetched.value.token.expiresAt)
    && (flight.done.Some? && flight.done.value.Ok? ==> (flight.key, flight.done.value.value) in issued)
  }

  ghost predicate AllBrought(started: seq<Flight>, issued: Issued) {
    forall f | 0 <= f < |started| :: Brought(started[f], issued)
  }

  /** An entry's token was issued for its key, and its stamp is the last place of its key among the uses. */
  ghost predicate EntryHolds(
    key: CacheKey, e: Entry, flights: map<CacheKey, nat>, uses: seq<CacheKey>, issued: Issued) {
    && key !in flights
    && (key, e.token) in issued && e.refreshAt <= e.token.expiresAt
    && 1 <= e.used <= |uses| && uses[e.used - 1] == key
    && forall i | e.used <= i < |uses| :: uses[i] != key
  }

  ghost predicate EntriesHold(
    cache: map<CacheKey, Entry>, flights: map<CacheKey, nat>, uses: seq<CacheKey>, issued: Issued) {
    forall k | k in cache :: EntryHolds(k, cache[k], flights, uses, issued)
  }

  ghost predicate ReturnsHold(returned: set<Returned>, issued: Issued) {
    forall r | r in returned :: (r.key, r.token) in issued && r.at < r.token.expiresAt
  }

  ghost predicate Inv(s: System, maxEntries: nat) {
    && FlightsHold(s.p.started, s.p.flights, s.waiting) && AllBrought(s.p.started, s.issued)
    && EntriesHold(s.p.cache, s.p.flights, s.uses, s.issued) && ReturnsHold(s.returned, s.issued)
    && |s.p.cache| <= maxEntries && |s.p.flights| <= maxEntries && s.p.sequence == |s.uses|
  }

  // ---- sizes ----

  lemma UpdateSize<K, V>(m: map<K, V>, k: K, v: V)
    ensures |m[k := v]| == if k in m then |m| else |m| + 1
  {
    assert m[k := v].Keys == m.Keys + {k};
  }

  lemma RemoveSize<K, V>(m: map<K, V>, k: K)
    ensures |m - {k}| == if k in m then |m| - 1 else |m|
  {
    assert (m - {k}).Keys == m.Keys - {k};
  }

  // ---- flights ----

  lemma JoinFlights(started: seq<Flight>, flights: map<CacheKey, nat>, waiting: map<nat, Wait>, key: CacheKey, c: nat)
    requires FlightsHold(started, flights, waiting) && key in flights && c !in waiting
    ensures var f := flights[key];
      FlightsHold(started[f := started[f].(waiters := started[f].waiters + 1)], flights, waiting[c := Wait(key, f)])
  {
    var f := flights[key];
    var after, now := started[f := started[f].(waiters := started[f].waiters + 1)], waiting[c := Wait(key, f)];
    forall g | 0 <= g < |after| ensures FlightHolds(after, flights, now, g) {
      assert FlightHolds(started, flights, waiting, g);
      assert Waiters(now, g) == if g == f then Waiters(waiting, g) + {c} else Waiters(waiting, g);
    }
  }

  lemma OpenFlights(started: seq<Flight>, flights: map<CacheKey, nat>, waiting: map<nat, Wait>, key: CacheKey, c: nat)
    requires FlightsHold(started, flights, waiting) && key !in flights && c !in waiting
    ensures FlightsHold(started + [Flight(key, 1, false, None, None)], flights[key := |started|],
              waiting[c := Wait(key, |started|)])
  {
    var f, after := |started|, started + [Flight(key, 1, false, None, None)];
    var open, now := flights[key := f], waiting[c := Wait(key, f)];
    forall g | 0 <= g < |after| ensures FlightHolds(after, open, now, g) {
      if g < f { assert FlightHolds(started, flights, waiting, g); }
      assert Waiters(now, g) == if g == f then {c} else Waiters(waiting, g);
    }
  }

  lemma LeaveFlights(p: Provided, waiting: map<nat, Wait>, c: nat)
    requires FlightsHold(p.started, p.flights, waiting) && c in waiting
    ensures var q := TokenLeave(p, waiting[c].flight);
      FlightsHold(q.started, q.flights, waiting - {c})
  {
    var f := waiting[c].flight;
    var q := TokenLeave(p, f);
    forall g | 0 <= g < |q.started| ensures FlightHolds(q.started, q.flights, waiting - {c}, g) {
      assert FlightHolds(p.started, p.flights, waiting, g);
      assert Waiters(waiting - {c}, g) == if g == f then Waiters(waiting, g) - {c} else Waiters(waiting, g);
      assert c in Waiters(waiting, f);
    }
  }

  /** A caller whose flight has ended returns. */
  lemma FinishFlights(started: seq<Flight>, flights: map<CacheKey, nat>, waiting: map<nat, Wait>, c: nat)
    requires FlightsHold(started, flights, waiting) && c in waiting && started[waiting[c].flight].done.Some?
    ensures FlightsHold(started, flights, waiting - {c})
  {
    forall g | 0 <= g < |started| ensures FlightHolds(started, flights, waiting - {c}, g) {
      assert FlightHolds(started, flights, waiting, g);
      assert Waiters(waiting - {c}, g) ==
        if g == waiting[c].flight then Waiters(waiting, g) - {c} else Waiters(waiting, g);
    }
  }

  lemma FetchFlights(
    started: seq<Flight>, flights: map<CacheKey, nat>, waiting: map<nat, Wait>, f: nat, fetched: Fetched)
    requires FlightsHold(started, flights, waiting) && f < |started|
    ensures FlightsHold(started[f := started[f].(fetched := Some(fetched))], flights, waiting)
  {
    var after := started[f := started[f].(fetched := Some(fetched))];
    forall g | 0 <= g < |after| ensures FlightHolds(after, flights, waiting, g) {
      assert FlightHolds(started, flights, waiting, g);
    }
  }

  lemma LandFlights(
    started: seq<Flight>, flights: map<CacheKey, nat>, waiting: map<nat, Wait>, f: nat, done: Result<Token, Failure>)
    requires FlightsHold(started, flights, waiting) && f < |started|
    ensures var rest := if Registered(started, flights, f) then flights - {started[f].key} else flights;
      FlightsHold(started[f := started[f].(done := Some(done))], rest, waiting)
  {
    var after := started[f := started[f].(done := Some(done))];
    var rest := if Registered(started, flights, f) then flights - {started[f].key} else flights;
    forall g | 0 <= g < |after| ensures FlightHolds(after, rest, waiting, g) {
      assert FlightHolds(started, flights, waiting, g);
    }
  }

  // ---- entries ----

  lemma UseEntry(
    cache: map<CacheKey, Entry>, flights: map<CacheKey, nat>, uses: seq<CacheKey>, issued: Issued, key: CacheKey,
    e: Entry)
    requires EntriesHold(cache, flights, uses, issued) && e.used == |uses| + 1
    requires key !in flights && (key, e.token) in issued && e.refreshAt <= e.token.expiresAt
    ensures EntriesHold(cache[key := e], flights, uses + [key], issued)
  {
    var after := cache[key := e];
    forall k | k in after ensures EntryHolds(k, after[k], flights, uses + [key], issued) {
      if k != key { assert EntryHolds(k, cache[k], flights, uses, issued); }
    }
  }

  lemma FewerEntries(
    cache: map<CacheKey, Entry>, flights: map<CacheKey, nat>, uses: seq<CacheKey>, issued: Issued,
    after: map<CacheKey, Entry>, flights': map<CacheKey, nat>, issued': Issued)
    requires EntriesHold(cache, flights, uses, issued)
    requires forall k | k in after :: k in cache && after[k] == cache[k] && k !in flights'
    requires issued <= issued'
    ensures EntriesHold(after, flights', uses, issued')
  {
    forall k | k in after ensures EntryHolds(k, after[k], flights', uses, issued') {
      assert EntryHolds(k, cache[k], flights, uses, issued);
    }
  }

  // ---- what flights brought ----

  lemma BroughtBy(started: seq<Flight>, issued: Issued, f: nat, flight: Flight)
    requires AllBrought(started, issued) && f < |started| && Brought(flight, issued)
    ensures AllBrought(started[f := flight], issued)
  {
    var after := started[f := flight];
    forall g | 0 <= g < |after| ensures Brought(after[g], issued) { assert g != f ==> after[g] == started[g]; }
  }

  lemma BroughtMore(started: seq<Flight>, issued: Issued, flight: Flight)
    requires AllBrought(started, issued) && Brought(flight, issued)
    ensures AllBrought(started + [flight], issued)
  {}

  lemma BroughtSince(started: seq<Flight>, issued: Issued, issued': Issued)
    requires AllBrought(started, issued) && issued <= issued'
    ensures AllBrought(started, issued')
  {
    forall g | 0 <= g < |started| ensures Brought(started[g], issued') { assert Brought(started[g], issued); }
  }

  // ---- each step keeps the invariant ----

  lemma HitEntries(p: Provided, uses: seq<CacheKey>, issued: Issued, key: CacheKey)
    requires EntriesHold(p.cache, p.flights, uses, issued) && key in p.cache && p.sequence == |uses|
    ensures EntriesHold(Use(p, key).cache, p.flights, uses + [key], issued) && |Use(p, key).cache| == |p.cache|
    ensures (key, p.cache[key].token) in issued && p.cache[key].refreshAt <= p.cache[key].token.expiresAt
  {
    var e := p.cache[key].(used := p.sequence + 1);
    assert EntryHolds(key, p.cache[key], p.flights, uses, issued);
    UpdateSize(p.cache, key, e);
    UseEntry(p.cache, p.flights, uses, issued, key, e);
  }

  lemma HitKeeps(s: System, c: nat, key: CacheKey, maxEntries: nat)
    requires Inv(s, maxEntries) && Fresh(s.p, key, s.now)
    ensures Inv(Ask(s, c, key, maxEntries), maxEntries)
  {
    HitEntries(s.p, s.uses, s.issued, key);
  }

  /** Dropping the key's entry. */
  lemma DropKeeps(s: System, key: CacheKey, maxEntries: nat)
    requires Inv(s, maxEntries)
    ensures Inv(Dropped(s, key), maxEntries)
  {
    RemoveSize(s.p.cache, key);
    FewerEntries(s.p.cache, s.p.flights, s.uses, s.issued, s.p.cache - {key}, s.p.flights, s.issued) by {
      assert forall k | k in s.p.cache :: EntryHolds(k, s.p.cache[k], s.p.flights, s.uses, s.issued);
    }
  }

  lemma JoinKeeps(s: System, c: nat, key: CacheKey, maxEntries: nat)
    requires Inv(s, maxEntries) && key in s.p.flights && c !in s.waiting
    ensures var f := s.p.flights[key];
      f < |s.p.started| && Inv(JoinedBy(s, c, key, f), maxEntries)
  {
    var f := s.p.flights[key];
    JoinFlights(s.p.started, s.p.flights, s.waiting, key, c);
    assert Brought(s.p.started[f], s.issued);
    BroughtBy(s.p.started, s.issued, f, s.p.started[f].(waiters := s.p.started[f].waiters + 1));
  }

  lemma OpenKeeps(s: System, c: nat, key: CacheKey, maxEntries: nat)
    requires Inv(s, maxEntries) && key !in s.p.flights && key !in s.p.cache
    requires |s.p.flights| < maxEntries && c !in s.waiting
    ensures Inv(JoinedBy(s.(p := Open(s.p, key)), c, key, |s.p.started|), maxEntries)
  {
    var f := |s.p.started|;
    var q := Join(Open(s.p, key), f);
    UpdateSize(s.p.flights, key, f);
    OpenFlights(s.p.started, s.p.flights, s.waiting, key, c);
    assert q.started == s.p.started + [Flight(key, 1, false, None, None)];
    BroughtMore(s.p.started, s.issued, Flight(key, 1, false, None, None));
    FewerEntries(s.p.cache, s.p.flights, s.uses, s.issued, s.p.cache, q.flights, s.issued) by {
      assert forall k | k in s.p.cache :: EntryHolds(k, s.p.cache[k], s.p.flights, s.uses, s.issued);
    }
  }

  /** A miss, step by step. */
  function Dropped(s: System, key: CacheKey): System { s.(p := s.p.(cache := s.p.cache - {key})) }

  function JoinedBy(s: System, c: nat, key: CacheKey, f: nat): System
    requires f < |s.p.started|
  {
    s.(p := Join(s.p, f), waiting := s.waiting[c := Wait(key, f)])
  }

  lemma MissIs(s: System, c: nat, key: CacheKey, maxEntries: nat)
    requires !Fresh(s.p, key, s.now) && (key in s.p.flights ==> s.p.flights[key] < |s.p.started|)
    ensures var t := Dropped(s, key);
      Ask(s, c, key, maxEntries)
      == (if key in s.p.flights then JoinedBy(t, c, key, s.p.flights[key])
          else if |s.p.flights| >= maxEntries then t
          else JoinedBy(t.(p := Open(t.p, key)), c, key, |s.p.started|))
  {}

  lemma MissKeeps(s: System, c: nat, key: CacheKey, maxEntries: nat)
    requires Inv(s, maxEntries) && !Fresh(s.p, key, s.now) && c !in s.waiting
    ensures Inv(Ask(s, c, key, maxEntries), maxEntries)
  {
    var t := Dropped(s, key);
    MissIs(s, c, key, maxEntries);
    DropKeeps(s, key, maxEntries);
    if key in s.p.flights { JoinKeeps(t, c, key, maxEntries); }
    else if |s.p.flights| < maxEntries { OpenKeeps(t, c, key, maxEntries); }
  }

  lemma LeaveKeeps(s: System, c: nat, maxEntries: nat)
    requires Inv(s, maxEntries) && c in s.waiting
    ensures Inv(Apply(s, Left(c), maxEntries), maxEntries)
  {
    var t, f := Apply(s, Left(c), maxEntries), s.waiting[c].flight;
    RemoveSize(s.p.flights, s.p.started[f].key);
    LeaveFlights(s.p, s.waiting, c);
    FewerEntries(s.p.cache, s.p.flights, s.uses, s.issued, t.p.cache, t.p.flights, s.issued) by {
      assert forall k | k in s.p.cache :: EntryHolds(k, s.p.cache[k], s.p.flights, s.uses, s.issued);
    }
    assert Brought(s.p.started[f], s.issued);
    BroughtBy(s.p.started, s.issued, f, t.p.started[f]);
  }

  lemma FinishKeeps(s: System, c: nat, cancelled: bool, maxEntries: nat)
    requires Inv(s, maxEntries) && Can(s, Finished(c, cancelled), maxEntries)
    ensures Inv(Finish(s, c, cancelled), maxEntries)
  {
    FinishFlights(s.p.started, s.p.flights, s.waiting, c);
    assert Brought(s.p.started[s.waiting[c].flight], s.issued);
  }

  lemma FetchKeeps(
    s: System, f: nat, token: Token, refreshAt: int, err: Option<Failure>, timedOut: bool, maxEntries: nat)
    requires Inv(s, maxEntries) && Can(s, Fetches(f, token, refreshAt, err, timedOut), maxEntries)
    ensures Inv(Fetch(s, f, token, refreshAt, err, timedOut), maxEntries)
  {
    var t := Fetch(s, f, token, refreshAt, err, timedOut);
    FetchFlights(s.p.started, s.p.flights, s.waiting, f, t.p.started[f].fetched.value);
    FewerEntries(s.p.cache, s.p.flights, s.uses, s.issued, t.p.cache, t.p.flights, t.issued) by {
      assert forall k | k in s.p.cache :: EntryHolds(k, s.p.cache[k], s.p.flights, s.uses, s.issued);
    }
    assert Brought(s.p.started[f], s.issued);
    BroughtSince(s.p.started, s.issued, t.issued);
    BroughtBy(s.p.started, t.issued, f, t.p.started[f]);
  }

  /** The flight ends, and is no longer registered. */
  lemma EndKeeps(s: System, f: nat, done: Result<Token, Failure>, maxEntries: nat)
    requires Inv(s, maxEntries) && f < |s.p.started| && (done.Ok? ==> (s.p.started[f].key, done.value) in s.issued)
    ensures Inv(s.(p := Ended(s.p, f, done)), maxEntries)
  {
    var q, key := Ended(s.p, f, done), s.p.started[f].key;
    RemoveSize(s.p.flights, key);
    LandFlights(s.p.started, s.p.flights, s.waiting, f, done);
    assert Brought(s.p.started[f], s.issued);
    BroughtBy(s.p.started, s.issued, f, q.started[f]);
    FewerEntries(s.p.cache, s.p.flights, s.uses, s.issued, s.p.cache, q.flights, s.issued) by {
      assert forall k | k in s.p.cache :: EntryHolds(k, s.p.cache[k], s.p.flights, s.uses, s.issued);
    }
  }

  function Ended(p: Provided, f: nat, done: Result<Token, Failure>): Provided
    requires f < |p.started|
  {
    p.(flights := if Registered(p.started, p.flights, f) then p.flights - {p.started[f].key} else p.flights,
       started := p.started[f := p.started[f].(done := Some(done))])
  }

  lemma StoreEntries(
    p: Provided, uses: seq<CacheKey>, issued: Issued, key: CacheKey, token: Token, refreshAt: int, oldest: CacheKey,
    maxEntries: nat)
    requires EntriesHold(p.cache, p.flights, uses, issued) && p.sequence == |uses|
    requires |p.cache| <= maxEntries && maxEntries > 0 && (|p.cache| >= maxEntries ==> oldest in p.cache)
    requires key !in p.flights && (key, token) in issued && refreshAt <= token.expiresAt
    ensures var after := Store(p, key, token, refreshAt, oldest, maxEntries).cache;
      EntriesHold(after, p.flights, uses + [key], issued) && |after| <= maxEntries
  {
    var room := if |p.cache| >= maxEntries then p.cache - {oldest} else p.cache;
    var e := Entry(token, refreshAt, p.sequence + 1);
    RemoveSize(p.cache, oldest);
    UpdateSize(room, key, e);
    FewerEntries(p.cache, p.flights, uses, issued, room, p.flights, issued) by {
      assert forall k | k in p.cache :: EntryHolds(k, p.cache[k], p.flights, uses, issued);
    }
    UseEntry(room, p.flights, uses, issued, key, e);
  }

  lemma StoreKeeps(s: System, key: CacheKey, token: Token, refreshAt: int, oldest: CacheKey, maxEntries: nat)
    requires Inv(s, maxEntries) && maxEntries > 0 && (|s.p.cache| >= maxEntries ==> oldest in s.p.cache)
    requires key !in s.p.flights && (key, token) in s.issued && refreshAt <= token.expiresAt
    ensures Inv(s.(p := Store(s.p, key, token, refreshAt, oldest, maxEntries), uses := s.uses + [key]), maxEntries)
  {
    StoreEntries(s.p, s.uses, s.issued, key, token, refreshAt, oldest, maxEntries);
  }

  lemma LandKeeps(s: System, f: nat, timedOut: bool, oldest: CacheKey, maxEntries: nat)
    requires Inv(s, maxEntries) && Can(s, Lands(f, timedOut, oldest), maxEntries) && maxEntries > 0
    ensures Inv(Landing(s, f, timedOut, oldest, maxEntries), maxEntries)
  {
    var key, got := s.p.started[f].key, s.p.started[f].fetched.value;
    var done := if got.err.Some? then Err(got.err.value) else Ok(got.token);
    assert Brought(s.p.started[f], s.issued);
    EndKeeps(s, f, done, maxEntries);
    var t := s.(p := Ended(s.p, f, done));
    LandIs(s, f, timedOut, oldest, maxEntries);
    if Stores(s.p, f, timedOut) {
      StoreKeeps(t, key, got.token, got.refreshAt, oldest, maxEntries);
    }
  }

  lemma LandIs(s: System, f: nat, timedOut: bool, oldest: CacheKey, maxEntries: nat)
    requires f < |s.p.started| && s.p.started[f].fetched.Some?
    ensures var key, got := s.p.started[f].key, s.p.started[f].fetched.value;
      var t := s.(p := Ended(s.p, f, if got.err.Some? then Err(got.err.value) else Ok(got.token)));
      Landing(s, f, timedOut, oldest, maxEntries)
      == if Stores(s.p, f, timedOut)
         then t.(p := Store(t.p, key, got.token, got.refreshAt, oldest, maxEntries), uses := s.uses + [key])
         else t
  {}

  lemma InvalidateKeeps(s: System, key: CacheKey, rejected: string, maxEntries: nat)
    requires Inv(s, maxEntries)
    ensures Inv(s.(p := Without(s.p, key, rejected)), maxEntries)
  {
    var after := Without(s.p, key, rejected).cache;
    RemoveSize(s.p.cache, key);
    FewerEntries(s.p.cache, s.p.flights, s.uses, s.issued, after, s.p.flights, s.issued) by {
      assert forall k | k in s.p.cache :: EntryHolds(k, s.p.cache[k], s.p.flights, s.uses, s.issued);
    }
  }

  lemma StepKeeps(s: System, step: Step, maxEntries: nat)
    requires Inv(s, maxEntries) && Can(s, step, maxEntries) && maxEntries > 0
    ensures Inv(Apply(s, step, maxEntries), maxEntries)
  {
    match step
    case Asked(c, key) =>
      if Fresh(s.p, key, s.now) { HitKeeps(s, c, key, maxEntries); } else { MissKeeps(s, c, key, maxEntries); }
    case Left(c) => LeaveKeeps(s, c, maxEntries);
    case Finished(c, cancelled) => FinishKeeps(s, c, cancelled, maxEntries);
    case Fetches(f, token, refreshAt, err, timedOut) => FetchKeeps(s, f, token, refreshAt, err, timedOut, maxEntries);
    case Lands(f, timedOut, oldest) => LandKeeps(s, f, timedOut, oldest, maxEntries);
    case Invalidates(key, rejected) => InvalidateKeeps(s, key, rejected, maxEntries);
    case Ticks(_) =>
  }

  // ---- whole runs ----

  const START := System(EMPTY, 0, map[], [], {}, {})

  /** Registered numbers are those of flights; the invariant has it, so no run ends for want of it. */
  predicate Linked(p: Provided) { forall k | k in p.flights :: p.flights[k] < |p.started| }

  ghost predicate Runs(s: System, steps: seq<Step>, t: System, maxEntries: nat)
    decreases |steps|
  {
    if steps == [] then s == t
    else Linked(s.p) && Can(s, steps[0], maxEntries) && Runs(Apply(s, steps[0], maxEntries), steps[1..], t, maxEntries)
  }

  lemma {:induction false} RunKeeps(s: System, steps: seq<Step>, t: System, maxEntries: nat)
    requires Inv(s, maxEntries) && Runs(s, steps, t, maxEntries) && maxEntries > 0
    ensures Inv(t, maxEntries)
    decreases |steps|
  {
    if steps != [] {
      StepKeeps(s, steps[0], maxEntries);
      RunKeeps(Apply(s, steps[0], maxEntries), steps[1..], t, maxEntries);
    }
  }

  /** Every token ever returned had been fetched for the key its caller asked for, and had not expired by then. */
  lemma ReturnedTokensFit(steps: seq<Step>, s: System, maxEntries: nat, r: Returned)
    requires Runs(START, steps, s, maxEntries) && maxEntries > 0 && r in s.returned
    ensures (r.key, r.token) in s.issued && r.at < r.token.expiresAt
  {
    RunKeeps(START, steps, s, maxEntries);
  }

  predicate Live(p: Provided, f: nat) { f < |p.started| && !p.started[f].cancelled && p.started[f].done == None }

  /** In every reachable state each key has at most one live flight and then no entry, a live flight counts exactly the
      callers waiting on it, a cancelled one has none, and neither table outgrows its bound. */
  lemma FlightsAreShared(steps: seq<Step>, s: System, maxEntries: nat)
    requires Runs(START, steps, s, maxEntries) && maxEntries > 0
    ensures forall f: nat, g: nat | Live(s.p, f) && Live(s.p, g) && s.p.started[f].key == s.p.started[g].key :: f == g
    ensures forall f: nat | Live(s.p, f) ::
      s.p.started[f].key !in s.p.cache && s.p.started[f].waiters == |Waiters(s.waiting, f)|
    ensures forall f | 0 <= f < |s.p.started| && s.p.started[f].cancelled :: Waiters(s.waiting, f) == {}
    ensures |s.p.cache| <= maxEntries && |s.p.flights| <= maxEntries
  {
    RunKeeps(START, steps, s, maxEntries);
    forall f: nat | Live(s.p, f)
      ensures Registered(s.p.started, s.p.flights, f) && s.p.started[f].key !in s.p.cache
           && s.p.started[f].waiters == |Waiters(s.waiting, f)|
    {
      assert FlightHolds(s.p.started, s.p.flights, s.waiting, f);
    }
    forall f | 0 <= f < |s.p.started| && s.p.started[f].cancelled ensures Waiters(s.waiting, f) == {} {
      assert FlightHolds(s.p.started, s.p.flights, s.waiting, f);
    }
  }

  /** A cancelled flight changes neither table when it lands, whatever has happened since. */
  lemma CancelledFlightIsInert(steps: seq<Step>, s: System, maxEntries: nat, f: nat, timedOut: bool, oldest: CacheKey)
    requires Runs(START, steps, s, maxEntries) && maxEntries > 0
    requires Can(s, Lands(f, timedOut, oldest), maxEntries) && s.p.started[f].cancelled
    ensures var q := Land(s.p, f, timedOut, oldest, maxEntries);
      q.cache == s.p.cache && q.flights == s.p.flights && q.sequence == s.p.sequence
  {
    RunKeeps(START, steps, s, maxEntries);
    assert FlightHolds(s.p.started, s.p.flights, s.waiting, f);
  }

  /** No entry has this token, and no flight under way has fetched it. */
  ghost predicate OutOf(p: Provided, value: string) { CacheOut(p.cache, value) && FlightsOut(p.started, value) }

  predicate CacheOut(cache: map<CacheKey, Entry>, value: string) {
    forall k | k in cache :: cache[k].token.value != value
  }

  predicate FlightsOut(started: seq<Flight>, value: string) {
    forall f | 0 <= f < |started| :: Brings(started[f], value) ==> started[f].done.Some?
  }

  predicate Brings(flight: Flight, value: string) { flight.fetched.Some? && flight.fetched.value.token.value == value }

  lemma FlightOut(started: seq<Flight>, value: string, f: nat, flight: Flight)
    requires FlightsOut(started, value) && f < |started| && (Brings(flight, value) ==> flight.done.Some?)
    ensures FlightsOut(started[f := flight], value)
  {}

  lemma AskKeepsOut(s: System, c: nat, key: CacheKey, value: string, maxEntries: nat)
    requires (key in s.p.flights ==> s.p.flights[key] < |s.p.started|) && OutOf(s.p, value)
    ensures OutOf(Ask(s, c, key, maxEntries).p, value)
  {
    if Fresh(s.p, key, s.now) { return; }
    MissIs(s, c, key, maxEntries);
    var p := Dropped(s, key).p;
    if key in p.flights {
      JoinKeepsOut(p, p.flights[key], value);
    } else if |p.flights| < maxEntries {
      OpenKeepsOut(p, key, value);
      JoinKeepsOut(Open(p, key), |p.started|, value);
    }
  }

  lemma JoinKeepsOut(p: Provided, f: nat, value: string)
    requires f < |p.started| && OutOf(p, value)
    ensures OutOf(Join(p, f), value)
  {
    FlightOut(p.started, value, f, Join(p, f).started[f]);
  }

  lemma OpenKeepsOut(p: Provided, key: CacheKey, value: string)
    requires OutOf(p, value)
    ensures OutOf(Open(p, key), value)
  {}

  lemma LeaveKeepsOut(p: Provided, f: nat, value: string)
    requires f < |p.started| && OutOf(p, value)
    ensures OutOf(TokenLeave(p, f), value)
  {
    FlightOut(p.started, value, f, TokenLeave(p, f).started[f]);
  }

  lemma FetchKeepsOut(
    s: System, f: nat, token: Token, refreshAt: int, err: Option<Failure>, timedOut: bool, value: string)
    requires f < |s.p.started| && OutOf(s.p, value) && token.value != value
    ensures OutOf(Fetch(s, f, token, refreshAt, err, timedOut).p, value)
  {
    FlightOut(s.p.started, value, f, Fetch(s, f, token, refreshAt, err, timedOut).p.started[f]);
  }

  lemma LandKeepsOut(s: System, f: nat, timedOut: bool, oldest: CacheKey, value: string, maxEntries: nat)
    requires f < |s.p.started| && s.p.started[f].fetched.Some? && s.p.started[f].done == None && OutOf(s.p, value)
    ensures OutOf(Landing(s, f, timedOut, oldest, maxEntries).p, value)
  {
    LandIs(s, f, timedOut, oldest, maxEntries);
    assert !Brings(s.p.started[f], value);
  }

  lemma StepKeepsOut(s: System, step: Step, value: string, maxEntries: nat)
    requires Linked(s.p) && Can(s, step, maxEntries) && OutOf(s.p, value)
    requires step.Fetches? ==> step.token.value != value
    ensures OutOf(Apply(s, step, maxEntries).p, value)
  {
    match step
    case Asked(c, key) => AskKeepsOut(s, c, key, value, maxEntries);
    case Left(c) => LeaveKeepsOut(s.p, s.waiting[c].flight, value);
    case Fetches(f, token, refreshAt, err, timedOut) => FetchKeepsOut(s, f, token, refreshAt, err, timedOut, value);
    case Lands(f, timedOut, oldest) => LandKeepsOut(s, f, timedOut, oldest, value, maxEntries);
    case _ =>
  }

  /** A token that was rejected is not served again, however long the provider runs and whoever asks: once no entry and
      no flight has it, none ever will, unless it is issued anew. */
  lemma {:induction false} RejectedStaysOut(s: System, steps: seq<Step>, t: System, value: string, maxEntries: nat)
    requires Runs(s, steps, t, maxEntries) && OutOf(s.p, value)
    requires forall step | step in steps :: step.Fetches? ==> step.token.value != value
    ensures OutOf(t.p, value)
    decreases |steps|
  {
    if steps != [] {
      assert steps[0] in steps;
      StepKeepsOut(s, steps[0], value, maxEntries);
      RejectedStaysOut(Apply(s, steps[0], maxEntries), steps[1..], t, value, maxEntries);
    }
  }

  /** How long ago a key was used: its last place, counted from one. */
  function LastUse(uses: seq<CacheKey>, key: CacheKey): nat {
    if uses == [] then 0 else if uses[|uses| - 1] == key then |uses| else LastUse(uses[..|uses| - 1], key)
  }

  lemma {:induction false} LastUseIs(uses: seq<CacheKey>, key: CacheKey, at: nat)
    requires 1 <= at <= |uses| && uses[at - 1] == key && forall i | at <= i < |uses| :: uses[i] != key
    ensures LastUse(uses, key) == at
    decreases |uses|
  {
    if at < |uses| { LastUseIs(uses[..|uses| - 1], key, at); }
  }

  lemma StampIsLastUse(
    cache: map<CacheKey, Entry>, flights: map<CacheKey, nat>, uses: seq<CacheKey>, issued: Issued, key: CacheKey)
    requires EntriesHold(cache, flights, uses, issued) && key in cache
    ensures cache[key].used == LastUse(uses, key) >= 1 && uses[cache[key].used - 1] == key && key !in flights
  {
    assert EntryHolds(key, cache[key], flights, uses, issued);
    LastUseIs(uses, key, cache[key].used);
  }

  /** Where room must be made, the entry that goes is the one whose key was used longest ago. */
  lemma EvictsLeastRecentlyUsed(steps: seq<Step>, s: System, maxEntries: nat, f: nat, oldest: CacheKey, other: CacheKey)
    requires Runs(START, steps, s, maxEntries) && maxEntries > 0
    requires Can(s, Lands(f, false, oldest), maxEntries) && Stores(s.p, f, false) && |s.p.cache| >= maxEntries
    requires other in s.p.cache && other != oldest
    ensures LastUse(s.uses, oldest) < LastUse(s.uses, other)
    ensures var q := Land(s.p, f, false, oldest, maxEntries);
      && q.cache.Keys == s.p.cache.Keys - {oldest} + {s.p.started[f].key}
      && other in q.cache && q.cache[other] == s.p.cache[other]
  {
    RunKeeps(START, steps, s, maxEntries);
    OldestIsLeastRecent(s.p.cache, s.p.flights, s.uses, s.issued, oldest, other);
    StoredEntries(s.p, f, oldest, other, maxEntries);
  }

  lemma OldestIsLeastRecent(
    cache: map<CacheKey, Entry>, flights: map<CacheKey, nat>, uses: seq<CacheKey>, issued: Issued, oldest: CacheKey,
    other: CacheKey)
    requires EntriesHold(cache, flights, uses, issued) && IsOldest(cache, oldest) && other in cache && other != oldest
    ensures LastUse(uses, oldest) < LastUse(uses, other) && other !in flights
  {
    StampIsLastUse(cache, flights, uses, issued, oldest);
    StampIsLastUse(cache, flights, uses, issued, other);
  }

  lemma StoredEntries(p: Provided, f: nat, oldest: CacheKey, other: CacheKey, maxEntries: nat)
    requires f < |p.started| && p.started[f].fetched.Some? && Stores(p, f, false) && |p.cache| >= maxEntries
    requires other in p.cache && other != oldest && other !in p.flights
    ensures var q := Land(p, f, false, oldest, maxEntries);
      && q.cache.Keys == p.cache.Keys - {oldest} + {p.started[f].key}
      && other in q.cache && q.cache[other] == p.cache[other]
  {}

  /** token_http.go: a token is refreshed early by a tenth of its lifetime and up to a twentieth more, so within the
      last fifteen hundredths of it and not in the last tenth. */
  function RefreshAt(expiresAt: int, ttl: nat, random: nat): int { expiresAt - (ttl / 10 + random) }

  lemma RefreshedInTime(started: int, ttl: nat, random: nat)
    requires random <= ttl / 20
    ensures var at := RefreshAt(started + ttl, ttl, random);
      at <= started + ttl - ttl / 10 && 100 * (at - started) >= 85 * ttl
  {}

  // ---- the provider ----

  const MAX_SEQUENCE: nat := 0xffff_ffff_ffff_ffff

  class Provider {
    const maxEntries: nat
    var cache: map<CacheKey, Entry>
    var flights: map<CacheKey, nat>
    var sequence: nat
    var started: seq<Flight>

    function Contents(): Provided
      reads this
    {
      Provided(cache, flights, sequence, started)
    }

    constructor (maxEntries: nat)
      ensures Contents() == EMPTY && this.maxEntries == maxEntries
    {
      this.maxEntries := maxEntries;
      cache, flights, sequence, started := map[], map[], 0, [];
    }

    /** The first critical section of token. */
    method Token(key: CacheKey, now: int) returns (start: Start)
      requires Linked(Contents())
      modifies this
      ensures (Contents(), start) == TokenStart(old(Contents()), key, now, maxEntries)
    {
      if key in cache && now < cache[key].refreshAt {
        sequence := sequence + 1;
        var cached := cache[key].(used := sequence);
        cache := cache[key := cached];
        return Hit(cached.token);
      }
      cache := cache - {key};
      if key !in flights {
        if |flights| >= maxEntries { return Full; }
        flights := flights[key := |started|];
        started := started + [Flight(key, 0, false, None, None)];
      }
      var f := flights[key];
      started := started[f := started[f].(waiters := started[f].waiters + 1)];
      return Joined(f);
    }

    /** The other one, for a caller whose context is done. */
    method Leave(f: nat)
      requires f < |started|
      modifies this
      ensures Contents() == TokenLeave(old(Contents()), f)
    {
      started := started[f := started[f].(waiters := started[f].waiters - 1)];
      if started[f].waiters == 0 && started[f].key in flights && flights[started[f].key] == f {
        flights := flights - {started[f].key};
        started := started[f := started[f].(cancelled := true)];
      }
    }

    /** The end of acquire. */
    method Acquired(f: nat, timedOut: bool) returns (ghost oldest: CacheKey)
      requires f < |started| && started[f].fetched.Some? && maxEntries > 0
      requires forall k | k in cache :: cache[k].used < MAX_SEQUENCE
      modifies this
      ensures old(Stores(Contents(), f, timedOut)) && |old(cache)| >= maxEntries ==> IsOldest(old(cache), oldest)
      ensures Contents() == Land(old(Contents()), f, timedOut, oldest, maxEntries)
    {
      var flight, got := started[f], started[f].fetched.value;
      oldest := flight.key;
      if flight.key in flights && flights[flight.key] == f {
        flights := flights - {flight.key};
        if got.err == None && !flight.cancelled && !timedOut {
          if |cache| >= maxEntries {
            var leastUsed := Oldest();
            oldest, cache := leastUsed, cache - {leastUsed};
          }
          sequence := sequence + 1;
          cache := cache[flight.key := Entry(got.token, got.refreshAt, sequence)];
        }
      }
      started := started[f := flight.(done := Some(if got.err.Some? then Err(got.err.value) else Ok(got.token)))];
    }

    /** The loop over the cache; entries may come in any order. */
    method Oldest() returns (oldest: CacheKey)
      requires |cache| > 0 && forall k | k in cache :: cache[k].used < MAX_SEQUENCE
      ensures IsOldest(cache, oldest)
    {
      oldest := CacheKey("", "", "", "", "");
      var used, rest := MAX_SEQUENCE, cache.Keys;
      while rest != {}
        invariant rest <= cache.Keys && used <= MAX_SEQUENCE
        invariant used == MAX_SEQUENCE ==> rest == cache.Keys
        invariant used < MAX_SEQUENCE ==> oldest in cache && cache[oldest].used == used
        invariant forall k | k in cache && k !in rest :: used <= cache[k].used
        decreases |rest|
      {
        var k :| k in rest;
        if cache[k].used < used { oldest, used := k, cache[k].used; }
        rest := rest - {k};
      }
      assert cache.Keys != {};
    }

    method Invalidate(key: CacheKey, rejected: string)
      modifies this`cache
      ensures Contents() == Without(old(Contents()), key, rejected)
      ensures cache == if rejected != "" && key in old(cache) && old(cache)[key].token.value == rejected
                       then old(cache) - {key} else old(cache)
    {
      if rejected == "" { return; }
      if key in cache && cache[key].token.value == rejected { cache := cache - {key}; }
    }
  }
}
