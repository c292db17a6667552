/** readcache/cache.go: read, fill and Invalidate of any number of processes sharing one server. Each script and
    each source read is one step; values and locks may expire at any step. A process that crashes or gives up
    takes no more steps, and its last script may still arrive late. */
module CacheFlights {
  import opened CacheServer

  /** Where a read call is: waiting to acquire, holding the lock, loading since `began`, or about to publish. */
  datatype Phase = Waiting | Locked | Loading(began: nat) | Publishing(entry: Entry)

  datatype Fill = Fill(name: Name, phase: Phase)

  /** A load past the server, after a failed cache operation. */
  datatype Direct = Direct(name: Name, began: nat)

  /** The server, the read calls under way, and an observer's notes: the source version of each key, when each
      name became known, when it was last invalidated and the source version then, and every result handed out. */
  datatype Flights = Flights(
    redis: Redis,
    clock: nat,
    source: map<string, nat>,
    fills: map<Token, Fill>,
    directs: map<Token, Direct>,
    tokens: set<Token>,
    ready: map<Name, nat>,
    cutAt: map<Name, nat>,
    floor: map<Name, nat>,
    results: set<(Name, Entry)>)

  datatype Step =
    | Tick
    | Commit(key: string)
    | Ready(name: Name)
    | Invalidate(name: Name)
    | Start(token: Token, name: Name)
    | TryAcquire(token: Token)
    | LateAcquire(token: Token, name: Name)
    | Bypass(token: Token)
    | EndBypass(token: Token)
    | Drop(token: Token, entry: Entry)
    | BeginLoad(token: Token)
    | EndLoad(token: Token)
    | FailLoad(token: Token)
    | TryPublish(token: Token, ttl: int)
    | LosePublishReply(token: Token)
    | ExpireValue(name: Name)
    | ExpireLock(name: Name)

  function Version(w: Flights, name: Name): nat { if name.key in w.source then w.source[name.key] else 0 }

  predicate Is(w: Flights, token: Token, phase: Phase) { token in w.fills && w.fills[token].phase == phase }

  /** Tokens are never reused. */
  predicate Can(w: Flights, step: Step) {
    match step
    case Start(token, name) => token !in w.tokens && name in w.ready
    case TryAcquire(token) => Is(w, token, Waiting)
    case LateAcquire(token, _) => token in w.tokens && token !in w.fills
    case Bypass(token) => Is(w, token, Waiting)
    case EndBypass(token) => token in w.directs
    case Drop(token, _) => Is(w, token, Waiting)
    case BeginLoad(token) => Is(w, token, Locked)
    case EndLoad(token) => token in w.fills && w.fills[token].phase.Loading?
    case FailLoad(token) => token in w.fills && w.fills[token].phase.Loading?
    case TryPublish(token, _) => token in w.fills && w.fills[token].phase.Publishing?
    case LosePublishReply(token) => token in w.fills && w.fills[token].phase.Publishing?
    case _ => true
  }

  function Acquired(w: Flights, token: Token): (Redis, Reply)
    requires token in w.fills
  {
    Acquire(w.redis, w.fills[token].name, token)
  }

  function Published(w: Flights, token: Token, ttl: int): (Redis, bool)
    requires token in w.fills && w.fills[token].phase.Publishing?
  {
    Publish(w.redis, w.fills[token].name, token, w.fills[token].phase.entry, ttl)
  }

  function NextRedis(w: Flights, step: Step): Redis
    requires Can(w, step)
  {
    match step
    case Invalidate(name) => CacheServer.Invalidate(w.redis, name)
    case TryAcquire(token) => Acquired(w, token).0
    case LateAcquire(token, name) => Acquire(w.redis, name, token).0
    case Drop(token, entry) => Discard(w.redis, w.fills[token].name, entry)
    case FailLoad(token) => Release(w.redis, w.fills[token].name, token).0
    case TryPublish(token, ttl) => Published(w, token, ttl).0
    case ExpireValue(name) => w.redis.(values := w.redis.values - {name})
    case ExpireLock(name) => w.redis.(locks := w.redis.locks - {name})
    case _ => w.redis
  }

  function Moved(w: Flights, token: Token, phase: Phase): map<Token, Fill>
    requires token in w.fills
  {
    w.fills[token := w.fills[token].(phase := phase)]
  }

  /** A hit and a stored value end the call; a lost lock sends it to wait again. */
  function NextFills(w: Flights, step: Step): map<Token, Fill>
    requires Can(w, step)
  {
    match step
    case Start(token, name) => w.fills[token := Fill(name, Waiting)]
    case TryAcquire(token) =>
      (match Acquired(w, token).1
       case Hit(_) => w.fills - {token}
       case Won => Moved(w, token, Locked)
       case Busy => w.fills)
    case Bypass(token) => w.fills - {token}
    case BeginLoad(token) => Moved(w, token, Loading(w.clock))
    case EndLoad(token) =>
      Moved(w, token, Publishing(Entry(Version(w, w.fills[token].name), w.fills[token].phase.began)))
    case FailLoad(token) => w.fills - {token}
    case TryPublish(token, ttl) =>
      if Published(w, token, ttl).1 then w.fills - {token} else Moved(w, token, Waiting)
    case _ => w.fills
  }

  function NextDirects(w: Flights, step: Step): map<Token, Direct>
    requires Can(w, step)
  {
    match step
    case Bypass(token) => w.directs[token := Direct(w.fills[token].name, w.clock)]
    case EndBypass(token) => w.directs - {token}
    case _ => w.directs
  }

  /** What the step hands out, to everybody waiting on the same local flight. */
  function HandedOut(w: Flights, step: Step): set<(Name, Entry)>
    requires Can(w, step)
  {
    match step
    case TryAcquire(token) =>
      (match Acquired(w, token).1 case Hit(entry) => {(w.fills[token].name, entry)} case _ => {})
    case EndBypass(token) =>
      {(w.directs[token].name, Entry(Version(w, w.directs[token].name), w.directs[token].began))}
    case TryPublish(token, ttl) =>
      if Published(w, token, ttl).1 then {(w.fills[token].name, w.fills[token].phase.entry)} else {}
    case LosePublishReply(token) => {(w.fills[token].name, w.fills[token].phase.entry)}
    case _ => {}
  }

  function NextReady(w: Flights, step: Step): map<Name, nat> {
    if step.Ready? && step.name !in w.ready then w.ready[step.name := w.clock] else w.ready
  }

  function NextSource(w: Flights, step: Step): map<string, nat> {
    if step.Commit? then w.source[step.key := Version(w, Plain(step.key)) + 1] else w.source
  }

  function Apply(w: Flights, step: Step): Flights
    requires Can(w, step)
  {
    Flights(
      NextRedis(w, step),
      w.clock + 1,
      NextSource(w, step),
      NextFills(w, step),
      NextDirects(w, step),
      if step.Start? then w.tokens + {step.token} else w.tokens,
      NextReady(w, step),
      if step.Invalidate? then w.cutAt[step.name := w.clock] else w.cutAt,
      if step.Invalidate? then w.floor[step.name := Version(w, step.name)] else w.floor,
      w.results + HandedOut(w, step))
  }

  // ---- invariants ----

  /** A load of `name` that began then did so after the name was known, and not in the future. */
  predicate Since(w: Flights, name: Name, began: nat) {
    name in w.ready && w.ready[name] < began < w.clock
  }

  /** `entry` was loaded after the last invalidation of `name`, and is no older than the source was then. */
  predicate Fresh(w: Flights, name: Name, entry: Entry) {
    && (name in w.cutAt ==> w.cutAt[name] < entry.began)
    && (name in w.floor ==> w.floor[name] <= entry.version)
  }

  predicate NotesOk(w: Flights, name: Name) {
    && (name in w.cutAt ==> w.cutAt[name] < w.clock)
    && (name in w.ready ==> w.ready[name] < w.clock)
    && (name in w.floor ==> w.floor[name] <= Version(w, name))
  }

  predicate FillOk(w: Flights, t: Token)
    requires t in w.fills
  {
    var f := w.fills[t];
    && t in w.tokens && f.name in w.ready
    && (f.phase.Loading? ==> Since(w, f.name, f.phase.began))
    && (f.phase.Publishing? ==> Since(w, f.name, f.phase.entry.began) && f.phase.entry.version <= Version(w, f.name))
  }

  /** Whoever holds the lock of a name is past acquiring it, and nothing has invalidated the name since. */
  predicate LockOk(w: Flights, n: Name)
    requires n in w.redis.locks
  {
    var t := w.redis.locks[n];
    && t in w.tokens
    && (t in w.fills ==>
          && w.fills[t].name == n && !w.fills[t].phase.Waiting?
          && (w.fills[t].phase.Loading? && n in w.cutAt ==> w.cutAt[n] < w.fills[t].phase.began)
          && (w.fills[t].phase.Publishing? ==> Fresh(w, n, w.fills[t].phase.entry)))
  }

  predicate ValueOk(w: Flights, n: Name)
    requires n in w.redis.values
  {
    var e := w.redis.values[n];
    Fresh(w, n, e) && e.version <= Version(w, n) && Since(w, n, e.began)
  }

  ghost predicate Inv(w: Flights) {
    && (forall n :: NotesOk(w, n))
    && (forall t | t in w.fills :: FillOk(w, t))
    && (forall n | n in w.redis.locks :: LockOk(w, n))
    && (forall n | n in w.redis.values :: ValueOk(w, n))
    && (forall t | t in w.directs :: Since(w, w.directs[t].name, w.directs[t].began))
    && (forall r | r in w.results :: Since(w, r.0, r.1.began))
  }

  /** Time passes, versions grow and names stay known. */
  ghost predicate Later(w: Flights, v: Flights) {
    && v.clock == w.clock + 1 && w.tokens <= v.tokens
    && (forall n :: Version(w, n) <= Version(v, n))
    && (forall n | n in w.ready :: n in v.ready && v.ready[n] == w.ready[n])
  }

  lemma StepLater(w: Flights, step: Step)
    requires Can(w, step)
    ensures Later(w, Apply(w, step))
  {
  }

  predicate Cut(w: Flights, v: Flights, n: Name) {
    n in v.cutAt && v.cutAt[n] == w.clock && n in v.floor && v.floor[n] == Version(w, n)
  }

  predicate Uncut(w: Flights, v: Flights, n: Name) {
    && (n in v.cutAt <==> n in w.cutAt) && (n in w.cutAt ==> v.cutAt[n] == w.cutAt[n])
    && (n in v.floor <==> n in w.floor) && (n in w.floor ==> v.floor[n] == w.floor[n])
  }

  /** Only an invalidation of the name itself changes its notes, and only a first reader makes it known. */
  lemma NotesMove(w: Flights, step: Step, n: Name)
    requires Can(w, step)
    ensures if step == Invalidate(n) then Cut(w, Apply(w, step), n) else Uncut(w, Apply(w, step), n)
    ensures var v := Apply(w, step); n in v.ready ==> n in w.ready || v.ready[n] == w.clock
  {
  }

  lemma StepNotes(w: Flights, step: Step, n: Name)
    requires Can(w, step) && NotesOk(w, n)
    ensures NotesOk(Apply(w, step), n)
  {
    var v := Apply(w, step);
    StepLater(w, step);
    NotesMove(w, step, n);
    NotesCarry(w, v, step == Invalidate(n), n);
  }

  lemma NotesCarry(w: Flights, v: Flights, cut: bool, n: Name)
    requires Later(w, v) && NotesOk(w, n)
    requires if cut then Cut(w, v, n) else Uncut(w, v, n)
    requires n in v.ready ==> n in w.ready || v.ready[n] == w.clock
    ensures NotesOk(v, n)
  {
  }

  /** How a fill got where it is: it did not move, it just started, or it took a step of its own. */
  predicate FillCame(w: Flights, step: Step, t: Token, f: Fill) {
    || (t in w.fills && f == w.fills[t])
    || (t !in w.tokens && f.phase.Waiting? && f.name in w.ready)
    || (t in w.fills && f.name == w.fills[t].name
        && match f.phase
           case Waiting => w.fills[t].phase.Publishing? && !HoldsLock(w.redis, f.name, t)
           case Locked => w.fills[t].phase.Waiting? && step == TryAcquire(t)
           case Loading(began) => w.fills[t].phase.Locked? && began == w.clock
           case Publishing(e) => w.fills[t].phase.Loading? && e == Entry(Version(w, f.name), w.fills[t].phase.began))
  }

  lemma FillMoves(w: Flights, step: Step, t: Token)
    requires Can(w, step) && t in NextFills(w, step)
    ensures FillCame(w, step, t, NextFills(w, step)[t])
    ensures t !in w.fills ==> step.Start? && step.token == t && t !in w.tokens
  {
  }

  lemma FillCarries(w: Flights, v: Flights, step: Step, t: Token)
    requires Later(w, v) && t in v.fills && FillCame(w, step, t, v.fills[t])
    requires t !in w.fills ==> t in v.tokens && t !in w.tokens
    requires t in w.fills ==> FillOk(w, t) && NotesOk(w, w.fills[t].name)
    ensures FillOk(v, t)
  {
  }

  lemma StepFill(w: Flights, step: Step, t: Token)
    requires Can(w, step) && t in Apply(w, step).fills
    requires t in w.fills ==> FillOk(w, t) && NotesOk(w, w.fills[t].name)
    ensures FillOk(Apply(w, step), t)
  {
    StepLater(w, step);
    FillMoves(w, step, t);
    FillCarries(w, Apply(w, step), step, t);
  }

  /** How a lock came about: it was there and nothing touched it, or its holder has just acquired it. */
  lemma LockMoves(w: Flights, step: Step, n: Name)
    requires Can(w, step) && n in NextRedis(w, step).locks
    ensures var t := NextRedis(w, step).locks[n];
      || (n in w.redis.locks && t == w.redis.locks[n] && step != Invalidate(n))
      || (step == TryAcquire(t) && w.fills[t].name == n && Acquired(w, t).1.Won?)
      || (step == LateAcquire(t, n) && t in w.tokens && t !in w.fills)
  {
  }

  lemma LockCarries(w: Flights, v: Flights, step: Step, n: Name)
    requires Later(w, v) && n in v.redis.locks && n in w.redis.locks && v.redis.locks[n] == w.redis.locks[n]
    requires NotesOk(w, n) && LockOk(w, n)
    requires Uncut(w, v, n)
    requires v.redis.locks[n] in v.fills ==> FillCame(w, step, v.redis.locks[n], v.fills[v.redis.locks[n]])
    ensures LockOk(v, n)
  {
  }

  lemma StepLock(w: Flights, step: Step, n: Name)
    requires Can(w, step) && n in Apply(w, step).redis.locks && NotesOk(w, n)
    requires forall t | t in w.fills :: FillOk(w, t)
    requires n in w.redis.locks ==> LockOk(w, n)
    ensures LockOk(Apply(w, step), n)
  {
    var v := Apply(w, step);
    var t := v.redis.locks[n];
    StepLater(w, step);
    NotesMove(w, step, n);
    LockMoves(w, step, n);
    if t in v.fills { FillMoves(w, step, t); }
    if n in w.redis.locks && t == w.redis.locks[n] && step != Invalidate(n) {
      LockCarries(w, v, step, n);
    } else if t in w.fills {
      assert FillOk(w, t);
    }
  }

  /** How a value came about: it was there, or the holder of its lock has just published it. */
  lemma ValueMoves(w: Flights, step: Step, n: Name)
    requires Can(w, step) && n in NextRedis(w, step).values
    ensures var e := NextRedis(w, step).values[n];
      && step != Invalidate(n)
      && ((n in w.redis.values && e == w.redis.values[n])
          || (n in w.redis.locks && w.redis.locks[n] in w.fills && w.fills[w.redis.locks[n]] == Fill(n, Publishing(e))))
  {
  }

  lemma StepValue(w: Flights, step: Step, n: Name)
    requires Can(w, step) && n in Apply(w, step).redis.values
    requires n in w.redis.values ==> ValueOk(w, n)
    requires n in w.redis.locks ==> LockOk(w, n) && (w.redis.locks[n] in w.fills ==> FillOk(w, w.redis.locks[n]))
    ensures ValueOk(Apply(w, step), n)
  {
    StepLater(w, step);
    NotesMove(w, step, n);
    ValueMoves(w, step, n);
    ValueCarries(w, Apply(w, step), n);
  }

  lemma ValueCarries(w: Flights, v: Flights, n: Name)
    requires Later(w, v) && n in v.redis.values
    requires Uncut(w, v, n)
    requires var e := v.redis.values[n]; Fresh(w, n, e) && e.version <= Version(w, n) && Since(w, n, e.began)
    ensures ValueOk(v, n)
  {
  }

  /** Where a result came from: a hit, a fill's own load, or a load past the server. */
  predicate ResultCame(w: Flights, r: (Name, Entry)) {
    || (r.0 in w.redis.values && r.1 == w.redis.values[r.0])
    || (exists t | t in w.fills :: w.fills[t].name == r.0 && w.fills[t].phase == Publishing(r.1))
    || (exists t | t in w.directs :: w.directs[t] == Direct(r.0, r.1.began))
  }

  lemma ResultMoves(w: Flights, step: Step, r: (Name, Entry))
    requires Can(w, step) && r in HandedOut(w, step)
    ensures ResultCame(w, r)
  {
    match step
    case TryAcquire(t) =>
    case EndBypass(t) => assert w.directs[t] == Direct(r.0, r.1.began);
    case TryPublish(t, _) => assert w.fills[t].name == r.0 && w.fills[t].phase == Publishing(r.1);
    case LosePublishReply(t) => assert w.fills[t].name == r.0 && w.fills[t].phase == Publishing(r.1);
  }

  lemma StepResult(w: Flights, step: Step, r: (Name, Entry))
    requires Can(w, step) && r in Apply(w, step).results
    requires r in w.results ==> Since(w, r.0, r.1.began)
    requires r.0 in w.redis.values ==> ValueOk(w, r.0)
    requires forall t | t in w.fills :: FillOk(w, t)
    requires forall t | t in w.directs :: Since(w, w.directs[t].name, w.directs[t].began)
    ensures Since(Apply(w, step), r.0, r.1.began)
  {
    StepLater(w, step);
    if r !in w.results { ResultMoves(w, step, r); }
  }

  lemma StepDirect(w: Flights, step: Step, t: Token)
    requires Can(w, step) && t in NextDirects(w, step)
    requires t in w.directs ==> Since(w, w.directs[t].name, w.directs[t].began)
    requires step == Bypass(t) ==> FillOk(w, t) && NotesOk(w, w.fills[t].name)
    ensures Since(Apply(w, step), NextDirects(w, step)[t].name, NextDirects(w, step)[t].began)
  {
    StepLater(w, step);
  }

  lemma StepServer(w: Flights, step: Step)
    requires Inv(w) && Can(w, step)
    ensures forall n | n in NextRedis(w, step).locks :: LockOk(Apply(w, step), n)
    ensures forall n | n in NextRedis(w, step).values :: ValueOk(Apply(w, step), n)
  {
    forall n | n in NextRedis(w, step).locks ensures LockOk(Apply(w, step), n) { StepLock(w, step, n); }
    forall n | n in NextRedis(w, step).values ensures ValueOk(Apply(w, step), n) { StepValue(w, step, n); }
  }

  lemma StepCalls(w: Flights, step: Step)
    requires Inv(w) && Can(w, step)
    ensures var v := Apply(w, step);
      && (forall t | t in v.fills :: FillOk(v, t))
      && (forall t | t in v.directs :: Since(v, v.directs[t].name, v.directs[t].began))
      && (forall r | r in v.results :: Since(v, r.0, r.1.began))
  {
    var v := Apply(w, step);
    forall t | t in v.fills ensures FillOk(v, t) { StepFill(w, step, t); }
    forall t | t in v.directs ensures Since(v, v.directs[t].name, v.directs[t].began) { StepDirect(w, step, t); }
    forall r | r in v.results ensures Since(v, r.0, r.1.began) { StepResult(w, step, r); }
  }

  lemma StepKeeps(w: Flights, step: Step)
    requires Inv(w) && Can(w, step)
    ensures Inv(Apply(w, step))
  {
    var v := Apply(w, step);
    forall n ensures NotesOk(v, n) { StepNotes(w, step, n); }
    StepCalls(w, step);
    StepServer(w, step);
  }

  // ---- what a holder that lost its lock can do ----

  /** Scripts of a token that does not hold the lock leave the server as it is. */
  lemma FormerHolderIsPowerless(r: Redis, k: Name, token: Token, entry: Entry, ttl: int)
    ensures HoldsLock(r, k, token)
         == Publish(r, k, token, entry, ttl).1 == Release(r, k, token).1 == Renew(r, k, token).1
    ensures !HoldsLock(r, k, token) ==>
      Publish(r, k, token, entry, ttl).0 == r == Release(r, k, token).0 == Renew(r, k, token).0
    ensures HoldsLock(r, k, token) ==>
      k !in Publish(r, k, token, entry, ttl).0.locks && k !in Release(r, k, token).0.locks
  {
  }

  ghost predicate Runs(w: Flights, steps: seq<Step>, v: Flights)
    decreases |steps|
  {
    if steps == [] then w == v else Can(w, steps[0]) && Runs(Apply(w, steps[0]), steps[1..], v)
  }

  predicate Lost(w: Flights, token: Token, name: Name) {
    token in w.fills && w.fills[token].name == name && !HoldsLock(w.redis, name, token)
  }

  lemma LostStays(w: Flights, step: Step, token: Token, name: Name)
    requires Can(w, step) && Lost(w, token, name) && step != TryAcquire(token) && token in w.tokens
    ensures token in Apply(w, step).fills ==> Lost(Apply(w, step), token, name)
  {
    var v := Apply(w, step);
    if token in v.fills {
      FillMoves(w, step, token);
      if name in v.redis.locks { LockMoves(w, step, name); }
    }
  }

  lemma LostPublishIsRefused(w: Flights, token: Token, name: Name, ttl: int)
    requires Can(w, TryPublish(token, ttl)) && Lost(w, token, name)
    ensures Apply(w, TryPublish(token, ttl)).redis == w.redis && Is(Apply(w, TryPublish(token, ttl)), token, Waiting)
  {
  }

  /** Once the lock is gone, expired or invalidated, nothing the holder still does before acquiring again, and no
      step of anybody, gives it back: its publication is refused whenever it arrives, and it is sent to wait. */
  lemma {:induction false} LostForGood(w: Flights, steps: seq<Step>, v: Flights, token: Token, name: Name)
    requires Inv(w) && Runs(w, steps, v) && Lost(w, token, name)
    requires forall step | step in steps :: step != TryAcquire(token)
    ensures token in v.fills ==> Lost(v, token, name)
    ensures token !in v.fills ==> Bypass(token) in steps || FailLoad(token) in steps
    decreases |steps|
  {
    if steps != [] {
      var next := Apply(w, steps[0]);
      assert steps[0] in steps;
      assert FillOk(w, token);
      StepKeeps(w, steps[0]);
      LostStays(w, steps[0], token, name);
      if token in next.fills {
        forall step | step in steps[1..] ensures step != TryAcquire(token) { assert step in steps; }
        LostForGood(next, steps[1..], v, token, name);
      } else {
        LeavesBy(w, steps[0], token, name);
        GoneStays(next, steps[1..], v, token);
      }
    }
  }

  lemma LeavesBy(w: Flights, step: Step, token: Token, name: Name)
    requires Can(w, step) && Lost(w, token, name) && step != TryAcquire(token) && token !in NextFills(w, step)
    ensures step == Bypass(token) || step == FailLoad(token)
  {
    if step.TryPublish? && step.token == token { LostPublishIsRefused(w, token, name, step.ttl); }
  }

  lemma {:induction false} GoneStays(w: Flights, steps: seq<Step>, v: Flights, token: Token)
    requires Runs(w, steps, v) && token !in w.fills && token in w.tokens
    ensures token !in v.fills
    decreases |steps|
  {
    if steps != [] {
      GoneOnce(w, steps[0], token);
      GoneStays(Apply(w, steps[0]), steps[1..], v, token);
    }
  }

  lemma GoneOnce(w: Flights, step: Step, token: Token)
    requires Can(w, step) && token !in w.fills && token in w.tokens
    ensures token !in Apply(w, step).fills && token in Apply(w, step).tokens
  {
    StepLater(w, step);
    if token in NextFills(w, step) { FillMoves(w, step, token); }
  }

  const START := Flights(Redis(map[], map[]), 1, map[], map[], map[], {}, map[], map[], map[], {})

  lemma {:induction false} RunKeeps(w: Flights, steps: seq<Step>, v: Flights)
    requires Inv(w) && Runs(w, steps, v)
    ensures Inv(v)
    decreases |steps|
  {
    if steps != [] {
      StepKeeps(w, steps[0]);
      RunKeeps(Apply(w, steps[0]), steps[1..], v);
    }
  }

  /** In every reachable state a stored value came from a load that began after the last invalidation of its name,
      and it is no older than the source was then; once the source has not changed since, it is the source's value. */
  lemma StoredIsFresh(steps: seq<Step>, w: Flights, name: Name)
    requires Runs(START, steps, w) && name in w.redis.values
    ensures Fresh(w, name, w.redis.values[name]) && w.redis.values[name].version <= Version(w, name)
    ensures name in w.floor && w.floor[name] == Version(w, name) ==> w.redis.values[name].version == Version(w, name)
  {
    RunKeeps(START, steps, w);
    assert ValueOk(w, name);
  }

  /** What a read returns at the moment it hits or publishes is as fresh. */
  lemma ReturnedIsFresh(steps: seq<Step>, w: Flights, step: Step, name: Name, entry: Entry)
    requires Runs(START, steps, w) && Can(w, step) && (step.TryAcquire? || step.TryPublish?)
    requires (name, entry) in Apply(w, step).results && (name, entry) !in w.results
    ensures Fresh(w, name, entry) && entry.version <= Version(w, name)
  {
    RunKeeps(START, steps, w);
    if step.TryAcquire? {
      HitReturns(w, step.token, name, entry);
      assert ValueOk(w, name);
    } else {
      PublishReturns(w, step.token, step.ttl, name, entry);
      assert LockOk(w, name) && FillOk(w, step.token);
    }
  }

  lemma HitReturns(w: Flights, token: Token, name: Name, entry: Entry)
    requires Can(w, TryAcquire(token)) && (name, entry) in HandedOut(w, TryAcquire(token))
    ensures name in w.redis.values && w.redis.values[name] == entry
  {
  }

  lemma PublishReturns(w: Flights, token: Token, ttl: int, name: Name, entry: Entry)
    requires Can(w, TryPublish(token, ttl)) && (name, entry) in HandedOut(w, TryPublish(token, ttl))
    ensures HoldsLock(w.redis, name, token) && w.fills[token] == Fill(name, Publishing(entry))
  {
  }
}
