/** outbox/relay.go: the relay's local view of its leases. Every method runs under the relay's mutex. */
module RelayLease {
  import opened Basics
  import opened OutboxTables
  import opened TableEffects

  /** `contexts` counts the lease contexts made so far and `cancelled` is the set of those cancelled.
      `armed` has the deadline of every expiry timer ever started, by epoch: stopping a timer may come
      too late to keep its function from running. `handed` is what callers were given. */
  datatype State = State(
    owned: seq<nat>,
    until: nat,
    ctx: Option<nat>,
    epoch: nat,
    contexts: nat,
    cancelled: set<nat>,
    armed: map<nat, nat>,
    handed: set<(nat, nat)>)

  const START := State([], 0, None, 0, 0, {}, map[], {})

  function CancelLease(r: State): State {
    r.(ctx := None, until := 0, cancelled := if r.ctx == None then r.cancelled else r.cancelled + {r.ctx.value})
  }

  function RenewLease(r: State, until: nat): State {
    var none := r.ctx == None || r.ctx.value in r.cancelled;
    r.(ctx := if none then Some(r.contexts) else r.ctx,
       contexts := if none then r.contexts + 1 else r.contexts,
       until := until, epoch := r.epoch + 1, armed := r.armed[r.epoch + 1 := until])
  }

  /** A claim that succeeded: `started` was read before the database transaction. */
  function Claim(r: State, owned: seq<nat>, started: nat, ttl: nat): State {
    var r1 := (if owned != r.owned then CancelLease(r) else r).(owned := owned);
    if owned == [] then CancelLease(r1) else RenewLease(r1, started + ttl)
  }

  /** The function of the timer armed in `epoch`. */
  function Fire(r: State, epoch: nat): State {
    if epoch != r.epoch then r else CancelLease(r.(owned := []))
  }

  function Stop(r: State): State { CancelLease(r.(owned := [])) }

  predicate MayLease(r: State, bucket: nat, now: nat) { r.ctx != None && now < r.until && bucket in r.owned }

  function HandOut(r: State, bucket: nat, now: nat): State {
    if MayLease(r, bucket, now) then r.(handed := r.handed + {(r.ctx.value, bucket)}) else r
  }

  datatype Step =
    | Claimed(owned: seq<nat>, started: nat, ttl: nat)
    | Fired(epoch: nat, now: nat)
    | Stopped
    | Asked(bucket: nat, now: nat)

  /** A timer's function runs only once its deadline has passed. */
  predicate Can(r: State, step: Step) {
    step.Fired? ==> step.epoch in r.armed && r.armed[step.epoch] <= step.now
  }

  function Apply(r: State, step: Step): State {
    match step
    case Claimed(owned, started, ttl) => Claim(r, owned, started, ttl)
    case Fired(epoch, _) => Fire(r, epoch)
    case Stopped => Stop(r)
    case Asked(bucket, now) => HandOut(r, bucket, now)
  }

  predicate Runs(r: State, steps: seq<Step>, q: State)
    decreases |steps|
  {
    if steps == [] then r == q else Can(r, steps[0]) && Runs(Apply(r, steps[0]), steps[1..], q)
  }

  /** At most one context is live, it fences a non-empty owned set until the deadline of the newest epoch,
      and whatever was handed out under it is still owned. */
  ghost predicate Fenced(r: State) {
    && (r.ctx == None ==> r.owned == [] && r.until == 0)
    && (r.ctx != None ==> r.ctx.value < r.contexts && r.ctx.value !in r.cancelled && r.owned != [])
    && (r.ctx != None ==> r.epoch in r.armed && r.armed[r.epoch] == r.until)
    && (forall c | 0 <= c < r.contexts :: c in r.cancelled || r.ctx == Some(c))
    && (forall c | c in r.cancelled :: c < r.contexts)
    && (forall e | e in r.armed :: e <= r.epoch)
    && (forall h | h in r.handed :: h.0 < r.contexts && (h.0 in r.cancelled || h.1 in r.owned))
  }

  lemma StepKeepsFence(r: State, step: Step)
    requires Fenced(r) && Can(r, step)
    ensures Fenced(Apply(r, step))
  {
  }

  lemma {:induction false} RunKeepsFence(r: State, steps: seq<Step>, q: State)
    requires Fenced(r) && Runs(r, steps, q)
    ensures Fenced(q)
    decreases |steps|
  {
    if steps != [] {
      StepKeepsFence(r, steps[0]);
      RunKeepsFence(Apply(r, steps[0]), steps[1..], q);
    }
  }

  /** Local fencing: in every reachable state a lease context handed out for a bucket and not yet cancelled is the
      relay's only live one, and its bucket is still owned. */
  lemma LiveContextMeansOwned(steps: seq<Step>, r: State, ctx: nat, bucket: nat)
    requires Runs(START, steps, r) && (ctx, bucket) in r.handed && ctx !in r.cancelled
    ensures bucket in r.owned && r.ctx == Some(ctx)
  {
    RunKeepsFence(START, steps, r);
    assert (ctx, bucket).0 < r.contexts;
  }

  /** An expiry timer ends ownership only at the deadline of the newest renewal: one left over from an earlier
      renewal does nothing, however late it runs. */
  lemma StaleTimerIsHarmless(steps: seq<Step>, r: State, epoch: nat, now: nat)
    requires Runs(START, steps, r) && Can(r, Fired(epoch, now))
    ensures Fire(r, epoch) != r ==> epoch == r.epoch && r.until <= now
    ensures r.ctx != None && now < r.until ==> Fire(r, epoch) == r
    ensures r.ctx != None && epoch == r.epoch ==> Fire(r, epoch).owned == [] && r.ctx.value in Fire(r, epoch).cancelled
  {
    RunKeepsFence(START, steps, r);
  }

  // ---- the deadline and the lease ----

  /** The last step that says what the relay owns. */
  function LastClaim(steps: seq<Step>): Option<Step> {
    if steps == [] then None
    else
      var last := steps[|steps| - 1];
      if last.Claimed? || last.Stopped? then Some(last) else LastClaim(steps[..|steps| - 1])
  }

  lemma {:induction false} RunsLast(r: State, steps: seq<Step>, q: State) returns (mid: State)
    requires steps != [] && Runs(r, steps, q)
    ensures Runs(r, steps[..|steps| - 1], mid) && Can(mid, steps[|steps| - 1]) && q == Apply(mid, steps[|steps| - 1])
    decreases |steps|
  {
    if |steps| == 1 {
      mid := r;
    } else {
      mid := RunsLast(Apply(r, steps[0]), steps[1..], q);
      assert steps[1..][..|steps| - 2] == steps[..|steps| - 1][1..];
    }
  }

  /** A timer ran at or after `deadline`. */
  predicate FiredBy(steps: seq<Step>, deadline: nat) {
    exists n | 0 <= n < |steps| :: steps[n].Fired? && deadline <= steps[n].now
  }

  /** What the relay believes in is what its last claim was told, until that claim's own end. */
  predicate Believes(r: State, steps: seq<Step>) {
    match LastClaim(steps)
    case Some(Claimed(owned, started, ttl)) =>
      && (r.ctx != None ==> r.owned == owned && r.until == started + ttl)
      && (r.ctx == None && owned != [] ==> FiredBy(steps, started + ttl))
    case _ => r.ctx == None
  }

  lemma BelievesNext(r: State, before: seq<Step>, step: Step)
    requires Fenced(r) && Can(r, step) && Believes(r, before)
    ensures Believes(Apply(r, step), before + [step])
  {
    var steps := before + [step];
    assert steps[..|steps| - 1] == before;
    if LastClaim(before).Some? && LastClaim(before).value.Claimed? && !step.Claimed? && !step.Stopped? {
      var deadline := LastClaim(before).value.started + LastClaim(before).value.ttl;
      if FiredBy(before, deadline) {
        var n :| 0 <= n < |before| && before[n].Fired? && deadline <= before[n].now;
        assert steps[n].Fired?;
      }
      if step.Fired? && r.ctx != None && step.epoch == r.epoch {
        assert steps[|before|].Fired? && deadline <= step.now;
      }
    }
  }

  lemma {:induction false} RunBelieves(steps: seq<Step>, r: State)
    requires Runs(START, steps, r)
    ensures Believes(r, steps)
    decreases |steps|
  {
    if steps != [] {
      var n := |steps| - 1;
      var mid := RunsLast(START, steps, r);
      RunBelieves(steps[..n], mid);
      RunKeepsFence(START, steps[..n], mid);
      BelievesNext(mid, steps[..n], steps[n]);
      assert steps == steps[..n] + [steps[n]];
    }
  }

  /** In every reachable state a bucket may be drained at `at` only when the last claim was given it, nothing has
      stopped the relay since, and less than the lease time has passed since that claim began; and then it may, unless
      an expiry timer ran at or after that end. */
  lemma MayLeaseUntilTheClaimsEnd(steps: seq<Step>, r: State, bucket: nat, at: nat)
    requires Runs(START, steps, r)
    ensures MayLease(r, bucket, at) ==>
      var last := LastClaim(steps);
      last.Some? && last.value.Claimed? && bucket in last.value.owned && at < last.value.started + last.value.ttl
    ensures var last := LastClaim(steps);
      (&& last.Some? && last.value.Claimed?
       && bucket in last.value.owned && at < last.value.started + last.value.ttl
       && !FiredBy(steps, last.value.started + last.value.ttl)) ==> MayLease(r, bucket, at)
  {
    RunBelieves(steps, r);
  }

  /** A claim and the lease its own transaction writes. The relay hands the claimed buckets out for exactly the lease
      time from before the transaction, so it stops less than two microseconds after the lease it was given, and it
      hands out nothing else. */
  lemma DeadlineIsTheLeases(
    cfg: Config, t: Tables, owner: Owner, r: State, started: nat, now: nat, ttl: nat, b: nat, at: nat)
    requires started <= now && b < cfg.bucketCount
    ensures var owned := OutboxTables.Claimed(t, owner, Micro(now), cfg.bucketCount);
      var u := ClaimTx(cfg, t, owner, ttl, Micro(now));
      var q := Claim(r, owned, started, ttl);
      && (MayLease(q, b, at) <==> b in owned && at < started + ttl)
      && (MayLease(q, b, at) ==>
            && b % 256 in u.leases && u.leases[b % 256].holder == owner
            && at < u.leases[b % 256].until + 1998 && u.leases[b % 256].until <= now + ttl)
  {
    var owned := OutboxTables.Claimed(t, owner, Micro(now), cfg.bucketCount);
    ClaimTakesTheFree(cfg, t, owner, ttl, Micro(now), b);
    LeasedAt(t, owner, LockedUntil(Micro(now), ttl), Micro(now), cfg.bucketCount, b % 256);
    DeadlinesAgree(started, now, ttl);
  }

  /** The local deadline of a claim that started at `started` and the lease its transaction wrote at `now`: the
      relay stops believing in the lease less than two microseconds after the database does. The bound is
      attained up to the last two nanoseconds, and is one microsecond less for a lease of whole microseconds. */
  lemma DeadlinesAgree(started: nat, now: nat, ttl: nat)
    requires started <= now
    ensures started + ttl <= LockedUntil(Micro(now), ttl) + 1998
    ensures ttl % 1000 == 0 ==> started + ttl <= LockedUntil(Micro(now), ttl) + 999
    ensures 999 + 999 == LockedUntil(Micro(999), 999) + 1998
  {
    var stamp := Micro(now);
    assert stamp % 1000 == 0;
    if ttl % 1000 == 0 { assert (stamp + ttl) % 1000 == 0; }
  }

  /** A claim that is told the same buckets keeps the context; any other cancels it, so nothing handed out under it is
      still believed in. */
  lemma RenewalKeepsContext(steps: seq<Step>, r: State, owned: seq<nat>, started: nat, ttl: nat)
    requires Runs(START, steps, r) && r.ctx != None
    ensures var q := Claim(r, owned, started, ttl);
      if owned == r.owned then q.ctx == r.ctx && q.cancelled == r.cancelled
      else r.ctx.value in q.cancelled && q.ctx != r.ctx && (q.ctx == None <==> owned == [])
  {
    RunKeepsFence(START, steps, r);
  }

  // ---- backoff ----

  datatype Retry = Retry(consecutive: nat, until: nat)

  function Pow2(n: nat): nat { if n == 0 then 1 else 2 * Pow2(n - 1) }

  function Min(a: nat, b: nat): nat { if a < b then a else b }

  /** The cap of the k-th consecutive failure: the minimum doubled k-1 times, but never above the maximum. */
  function BackoffCap(least: nat, most: nat, consecutive: nat): nat
    requires 0 < consecutive
  {
    Min(least * Pow2(consecutive - 1), most)
  }

  lemma {:induction false} CapStays(least: nat, most: nat, i: nat, consecutive: nat)
    requires 0 < i <= consecutive && most <= least * Pow2(i - 1)
    ensures BackoffCap(least, most, consecutive) == most
    decreases consecutive - i
  {
    if i < consecutive {
      assert least * Pow2(i) == 2 * (least * Pow2(i - 1));
      CapStays(least, most, i + 1, consecutive);
    }
  }

  /** Each further failure doubles the cap, from the minimum to the maximum. */
  lemma CapDoubles(least: nat, most: nat, consecutive: nat)
    requires 0 < consecutive && least <= most
    ensures BackoffCap(least, most, 1) == least
    ensures BackoffCap(least, most, consecutive + 1) == Min(2 * BackoffCap(least, most, consecutive), most)
  {
    assert least * Pow2(consecutive) == 2 * (least * Pow2(consecutive - 1));
  }

  /** One PublishBucket call as the relay sees it. */
  datatype Reply = Published(n: nat) | Cancelled(n: nat) | Terminal(n: nat) | Failed(n: nat, hint: int)

  function Total(replies: seq<Reply>, count: nat): nat
    requires count <= |replies|
  {
    if count == 0 then 0 else Total(replies, count - 1) + replies[count - 1].n
  }

  lemma {:induction false} TotalOfMore(replies: seq<Reply>, reply: Reply, count: nat)
    requires count <= |replies|
    ensures Total(replies + [reply], count) == Total(replies, count)
  {
    if count > 0 { TotalOfMore(replies, reply, count - 1); }
  }

  lemma TotalMore(replies: seq<Reply>, reply: Reply)
    ensures Total(replies + [reply], |replies| + 1) == Total(replies, |replies|) + reply.n
  {
    TotalOfMore(replies, reply, |replies|);
  }

  /** Failures since the last round trip that succeeded or parked its row; cancellation counts as neither. */
  function Streak(replies: seq<Reply>): nat {
    if replies == [] then 0
    else
      var last := replies[|replies| - 1];
      var before := Streak(replies[..|replies| - 1]);
      match last
      case Failed(_, _) => before + 1
      case Cancelled(_) => before
      case _ => 0
  }

  /** The reply ended a streak: the round trip succeeded, or parked its row. */
  predicate Ends(reply: Reply) { reply.Published? || reply.Terminal? }

  /** The failures from position `from` on. */
  function FailuresFrom(replies: seq<Reply>, from: nat): set<nat> {
    set i: nat | from <= i < |replies| && replies[i].Failed?
  }

  /** The streak is the number of failures after the last reply that ended one. */
  lemma {:induction false} StreakCounts(replies: seq<Reply>) returns (from: nat)
    ensures from <= |replies| && Streak(replies) == |FailuresFrom(replies, from)|
    ensures from > 0 ==> Ends(replies[from - 1])
    ensures forall i | from <= i < |replies| :: !Ends(replies[i])
    decreases |replies|
  {
    if replies == [] {
      assert FailuresFrom(replies, 0) == {};
      return 0;
    }
    var n := |replies| - 1;
    from := StreakCounts(replies[..n]);
    if Ends(replies[n]) {
      from := |replies|;
      assert FailuresFrom(replies, from) == {};
    } else if replies[n].Failed? {
      assert FailuresFrom(replies, from) == FailuresFrom(replies[..n], from) + {n};
    } else {
      assert FailuresFrom(replies, from) == FailuresFrom(replies[..n], from);
    }
  }

  class Relay {
    var state: State
    var retries: map<nat, Retry>
    const ttl: nat
    const batchSize: nat
    const backoffMin: nat
    const backoffMax: nat
    /** Every reply seen for a bucket. */
    ghost var seen: map<nat, seq<Reply>>

    predicate Tuned() { 0 < backoffMin <= backoffMax && 0 < batchSize }

    ghost function Seen(bucket: nat): seq<Reply>
      reads `seen
    {
      if bucket in seen then seen[bucket] else []
    }

    function Consecutive(bucket: nat): nat
      reads `retries
    {
      if bucket in retries then retries[bucket].consecutive else 0
    }

    /** A bucket's retry state counts its current streak of failures, and exists only during one. */
    ghost predicate Counts(bucket: nat)
      reads `retries, `seen
    {
      Consecutive(bucket) == Streak(Seen(bucket)) && (bucket in retries ==> 0 < Consecutive(bucket))
    }

    ghost predicate Valid()
      reads `retries, `seen
    {
      Tuned() && forall b: nat :: Counts(b)
    }

    constructor (ttl: int, batchSize: int, backoffMin: int, backoffMax: int)
      ensures Valid() && state == START && retries == map[]
      ensures this.ttl == (if ttl <= 0 then 30_000_000_000 else ttl)
      ensures this.batchSize == (if batchSize <= 0 then 100 else batchSize)
      ensures this.backoffMin == (if backoffMin <= 0 then 500_000_000 else backoffMin)
      ensures var most := if backoffMax <= 0 then 30_000_000_000 else backoffMax;
        this.backoffMax == if most < this.backoffMin then this.backoffMin else most
    {
      this.ttl := if ttl <= 0 then 30_000_000_000 else ttl;
      this.batchSize := if batchSize <= 0 then 100 else batchSize;
      var least: nat := if backoffMin <= 0 then 500_000_000 else backoffMin;
      var most: nat := if backoffMax <= 0 then 30_000_000_000 else backoffMax;
      this.backoffMin := least;
      this.backoffMax := if most < least then least else most;
      state, retries, seen := START, map[], map[];
    }

    method ClaimSucceeded(owned: seq<nat>, started: nat)
      modifies `state
      ensures state == Claim(old(state), owned, started, ttl)
      ensures owned != [] ==> state.ctx != None && state.owned == owned && state.until == started + ttl
      ensures owned == [] ==> state.ctx == None
    {
      var changed := owned != state.owned;
      if changed { CancelLeaseLocked(); }
      state := state.(owned := owned);
      if owned == [] { CancelLeaseLocked(); } else { RenewLeaseLocked(started + ttl); }
    }

    method RenewLeaseLocked(until: nat)
      modifies `state
      ensures state == RenewLease(old(state), until)
    {
      if state.ctx == None || state.ctx.value in state.cancelled {
        state := state.(ctx := Some(state.contexts), contexts := state.contexts + 1);
      }
      state := state.(until := until, epoch := state.epoch + 1);
      state := state.(armed := state.armed[state.epoch := until]);
    }

    method CancelLeaseLocked()
      modifies `state
      ensures state == CancelLease(old(state))
    {
      if state.ctx != None { state := state.(cancelled := state.cancelled + {state.ctx.value}); }
      state := state.(ctx := None, until := 0);
    }

    method TimerFired(epoch: nat)
      modifies `state
      ensures state == Fire(old(state), epoch)
    {
      if epoch != state.epoch { return; }
      state := state.(owned := []);
      CancelLeaseLocked();
    }

    method BucketLease(bucket: nat, now: nat) returns (ctx: Option<nat>)
      modifies `state
      ensures state == HandOut(old(state), bucket, now)
      ensures ctx == if MayLease(old(state), bucket, now) then old(state).ctx else None
      ensures ctx != None <==>
        old(state).ctx != None && now < old(state).until && bucket in old(state).owned
      ensures ctx != None ==> (ctx.value, bucket) in state.handed
    {
      if state.ctx == None || now >= state.until || bucket !in state.owned { return None; }
      state := state.(handed := state.handed + {(state.ctx.value, bucket)});
      return state.ctx;
    }

    /** `jitter` chooses what the delay is below the cap. */
    method DeferBucket(bucket: nat, hint: int, now: nat, jitter: nat -> nat) returns (delay: nat)
      requires Tuned()
      modifies `retries
      ensures var k := old(Consecutive(bucket)) + 1;
        && retries == old(retries)[bucket := Retry(k, now + delay)]
        && delay == if hint > 0 then hint else jitter(BackoffCap(backoffMin, backoffMax, k))
    {
      var consecutive := Consecutive(bucket) + 1;
      var cap := DoubledCap(consecutive);
      delay := jitter(cap);
      if hint > 0 { delay := hint; }
      retries := retries[bucket := Retry(consecutive, now + delay)];
    }

    /** The loop of deferBucket. */
    method DoubledCap(consecutive: nat) returns (cap: nat)
      requires Tuned() && 0 < consecutive
      ensures cap == BackoffCap(backoffMin, backoffMax, consecutive)
    {
      cap := backoffMin;
      var i := 1;
      while i < consecutive && cap < backoffMax
        invariant 1 <= i <= consecutive && cap <= backoffMax
        invariant cap == backoffMin * Pow2(i - 1)
          || (cap == backoffMax && BackoffCap(backoffMin, backoffMax, consecutive) == backoffMax)
        decreases consecutive - i
      {
        if cap > backoffMax / 2 {
          assert backoffMin * Pow2(i) == 2 * (backoffMin * Pow2(i - 1));
          CapStays(backoffMin, backoffMax, i + 1, consecutive);
          cap := backoffMax;
          break;
        }
        assert backoffMin * Pow2(i) == 2 * (backoffMin * Pow2(i - 1));
        cap := cap * 2;
        i := i + 1;
      }
      if cap == backoffMin * Pow2(i - 1) && i < consecutive {
        CapStays(backoffMin, backoffMax, i, consecutive);
      }
      if cap > backoffMax { cap := backoffMax; }
    }

    /** What one reply does to the bucket's backoff. */
    method Settle(bucket: nat, reply: Reply, now: nat, jitter: nat -> nat)
      requires Valid()
      modifies `retries, `seen
      ensures Valid() && Seen(bucket) == old(Seen(bucket)) + [reply]
      ensures forall b | b != bucket :: Seen(b) == old(Seen(b))
      ensures retries - {bucket} == old(retries) - {bucket}
      ensures match reply
              case Cancelled(_) => retries == old(retries)
              case Failed(_, hint) =>
                var k := old(Consecutive(bucket)) + 1;
                && bucket in retries && retries[bucket].consecutive == k
                && retries[bucket].until
                   == now + if hint > 0 then hint else jitter(BackoffCap(backoffMin, backoffMax, k))
              case _ => bucket !in retries
    {
      ghost var before := Seen(bucket);
      assert Counts(bucket);
      match reply {
        case Cancelled(_) =>
        case Failed(_, hint) => var _ := DeferBucket(bucket, hint, now, jitter);
        case _ => retries := retries - {bucket};
      }
      seen := seen[bucket := before + [reply]];
      assert (before + [reply])[..|before|] == before;
      forall b: nat ensures Counts(b) {
        assert b != bucket ==> old(Counts(b));
      }
    }

    /** drainBucket, whatever the store answers on each turn and whatever the clock shows: another batch is asked for
        only after a full one, and the bucket backs off by its streak of failures, which only a successful or terminal
        reply ends. `turns` bounds the run of full batches, which the source does not. */
    method DrainBucket(bucket: nat, turns: nat, jitter: nat -> nat)
      returns (published: nat, ghost replies: seq<Reply>, ghost leasedAt: nat, ghost checkedAt: nat)
      requires Valid()
      modifies `state, `retries, `seen
      ensures Valid() && state == HandOut(old(state), bucket, leasedAt) && published == Total(replies, |replies|)
      ensures replies != [] <==>
        && turns > 0 && MayLease(old(state), bucket, leasedAt)
        && !(bucket in old(retries) && checkedAt < old(retries)[bucket].until)
      ensures forall i | 0 <= i < |replies| - 1 :: replies[i].Published? && replies[i].n >= batchSize
      ensures 0 < |replies| < turns ==>
        var last := replies[|replies| - 1]; !last.Published? || last.n < batchSize
      ensures Seen(bucket) == old(Seen(bucket)) + replies && retries - {bucket} == old(retries) - {bucket}
    {
      published, replies, leasedAt, checkedAt := 0, [], *, *;
      ghost var before := Seen(bucket);
      var now: nat := *;
      leasedAt := now;
      var ctx := BucketLease(bucket, now);
      if ctx == None { return; }
      now := *;
      checkedAt := now;
      if bucket in retries && now < retries[bucket].until { return; }
      for turn := 0 to turns
        invariant Valid() && |replies| == turn && published == Total(replies, turn)
        invariant state == HandOut(old(state), bucket, leasedAt)
        invariant Seen(bucket) == before + replies && retries - {bucket} == old(retries) - {bucket}
        invariant forall i | 0 <= i < turn :: IsFull(replies[i])
      {
        var reply: Reply := *;
        now := *;
        Settle(bucket, reply, now, jitter);
        TotalMore(replies, reply);
        assert before + replies + [reply] == before + (replies + [reply]);
        published, replies := published + reply.n, replies + [reply];
        if !IsFull(reply) { return; }
      }
    }

    predicate IsFull(reply: Reply) { reply.Published? && reply.n >= batchSize }
  }
}
