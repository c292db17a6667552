/** The outbox's promises, for every run from empty tables: any interleaving of any number of relays,
    writers and operators, with crashes, handovers and lost replies anywhere. */
module OutboxTheorems {
  import opened Basics
  import opened OutboxTables
  import opened OutboxProtocol
  import opened OutboxSafety

  ghost predicate Reachable(cfg: Config, s: System)
    requires cfg.Valid()
  {
    exists s0, steps :: Initial(s0) && Runs(cfg, s0, steps, s)
  }

  lemma ReachableInv(cfg: Config, s: System)
    requires cfg.Valid() && Reachable(cfg, s)
    ensures Inv(cfg, s)
  {
    var s0, steps :| Initial(s0) && Runs(cfg, s0, steps, s);
    RunKeeps(cfg, s0, steps, s);
  }

  /** Conservation: every enqueued row is in exactly one place, a removed row reached the broker as it was
      enqueued, and pending and dead never share a key, so a replay never meets a conflict. */
  lemma NothingIsLost(cfg: Config, s: System, key: Key)
    requires cfg.Valid() && Reachable(cfg, s)
    ensures Places(s, key) == if key in s.enqueued then 1 else 0
    ensures key in s.removed ==> WasDelivered(s, key)
    ensures key in s.tables.dead || key in s.expired ==> WasParked(s, key)
    ensures key in s.tables.pending ==> key in s.enqueued && s.tables.pending[key].content == s.enqueued[key].content
    ensures ReplayTx(s.tables, key) != Err(Conflict)
    ensures forall i | 0 <= i < |s.log| && s.log[i].Delivered? && s.log[i].event.key == key ::
              key in s.enqueued && s.log[i].event.content == s.enqueued[key].content
  {
    ReachableInv(cfg, s);
    assert Placed(s, key);
    forall i | 0 <= i < |s.log| && s.log[i].Delivered? && s.log[i].event.key == key
      ensures key in s.enqueued && s.log[i].event.content == s.enqueued[key].content
    {
      assert Genuine(s, s.log[i].event);
    }
  }

  /** Per-key order: whenever a row reaches the broker, every row of the same partition key that was both
      created and committed before it had already been delivered or set aside as a dead letter. */
  lemma DeliveredInOrder(cfg: Config, s: System, e: Key, f: Key, j: nat)
    requires cfg.Valid() && Reachable(cfg, s)
    requires j < |s.log| && s.log[j].Delivered? && s.log[j].event.key == f
    requires e in s.enqueued && f in s.enqueued
    requires s.enqueued[e].content.partitionKey == s.enqueued[f].content.partitionKey
    requires e.createdAt < f.createdAt || (e.createdAt == f.createdAt && e.id < f.id)
    requires s.enqueued[e].commit < s.enqueued[f].commit
    ensures exists i | 0 <= i < j :: Settles(s.log[i], e)
  {
    ReachableInv(cfg, s);
    assert Precedes(s, e, s.log[j].event.key);
    assert Settled(s, j, e);
  }

  /** Before a session sends a row, it has delivered every smaller row of the bucket its read saw pending. */
  lemma BatchInOrder(cfg: Config, s: System, sid: nat, e: Key)
    requires cfg.Valid() && Reachable(cfg, s)
    requires InPhase(s, sid) && e in s.sessions[sid].pendingAtRead && Less(e, Current(s, sid).key)
    ensures WasDelivered(s, e)
  {
    ReachableInv(cfg, s);
    var x := s.sessions[sid];
    assert SessionKept(s, sid);
    var i :| 0 <= i < x.published && x.batch[i].key == e;
    assert WasDelivered(s, x.batch[i].key);
  }

  /** The attempt budget: a row's counter is the number of non-transient failures charged since it last
      became pending, below the limit while it waits and at most the limit when it is parked. */
  lemma BudgetIsKept(cfg: Config, s: System, key: Key)
    requires cfg.Valid() && Reachable(cfg, s)
    ensures key in s.tables.pending ==> s.tables.pending[key].attempts == Charges(s.log, key) < cfg.maxAttempts
    ensures key in s.tables.dead ==> 0 < s.tables.dead[key].attempts == Charges(s.log, key) <= cfg.maxAttempts
  {
    ReachableInv(cfg, s);
  }

  // ---- fencing ----

  ghost predicate ActsFor(s: System, step: Step, owner: Owner) {
    match step
    case Read(_, o, _, _, _, _) => o == owner
    case Check(sid, _) => sid in s.sessions && s.sessions[sid].owner == owner
    case Broker(sid, _) => sid in s.sessions && s.sessions[sid].owner == owner
    case Delete(sid, _, _) => sid in s.sessions && s.sessions[sid].owner == owner
    case Record(sid, _, _, _, _) => sid in s.sessions && s.sessions[sid].owner == owner
    case Leave(sid) => sid in s.sessions && s.sessions[sid].owner == owner
    case Claim(o, _, _) => o == owner
    case _ => false
  }

  predicate SameBucket(t: Tables, u: Tables, column: nat) {
    && (forall k | k in t.pending && k.bucket == column :: k in u.pending && u.pending[k] == t.pending[k])
    && (forall k | k in u.pending && k.bucket == column :: k in t.pending)
    && (forall k | k in t.dead && k.bucket == column :: k in u.dead && u.dead[k] == t.dead[k])
    && (forall k | k in u.dead && k.bucket == column :: k in t.dead)
  }

  predicate HeldByOther(t: Tables, column: nat, owner: Owner) {
    column in t.leases && t.leases[column].holder != owner
  }

  lemma FencedDelete(s: System, sid: nat, stamp: nat, acked: bool, column: nat)
    requires InPhase(s, sid) && Current(s, sid).key.bucket < 256 && HeldByOther(s.tables, column, s.sessions[sid].owner)
    ensures SameBucket(s.tables, ApplyDelete(s, sid, stamp, acked).tables, column)
  {
  }

  lemma FencedRecord(cfg: Config, s: System, sid: nat, stamp: nat, failedAt: nat, message: string, column: nat)
    requires InPhase(s, sid) && s.sessions[sid].phase.Recording?
    requires Current(s, sid).key.bucket < 256 && HeldByOther(s.tables, column, s.sessions[sid].owner)
    ensures SameBucket(s.tables, ApplyRecord(cfg, s, sid, stamp, failedAt, message).tables, column)
  {
  }

  lemma FencedStep(cfg: Config, s: System, step: Step, owner: Owner, column: nat)
    requires cfg.Valid() && SessionsKept(s) && Can(cfg, s, step) && ActsFor(s, step, owner)
    requires HeldByOther(s.tables, column, owner)
    ensures SameBucket(s.tables, Apply(cfg, s, step).tables, column)
  {
    if step.Delete? {
      assert SessionKept(s, step.sid);
      FencedDelete(s, step.sid, step.stamp, step.acked, column);
    } else if step.Record? {
      assert SessionKept(s, step.sid);
      FencedRecord(cfg, s, step.sid, step.stamp, step.failedAt, step.message, column);
    }
  }

  /** A lease leaves its holder only by a claim made after it lapsed on the claimant's clock. */
  lemma LeaseMoves(cfg: Config, s: System, step: Step, column: nat)
    requires cfg.Valid() && Can(cfg, s, step) && column in s.tables.leases
    ensures var l, t := s.tables.leases[column], Apply(cfg, s, step).tables;
      column in t.leases &&
      (t.leases[column].holder != l.holder ==>
         step.Claim? && t.leases[column].holder == step.owner && l.until <= step.stamp)
  {
    if step.Claim? {
      LeasedAt(s.tables, step.owner, LockedUntil(step.stamp, step.ttl), step.stamp, cfg.bucketCount, column);
    }
  }

  /** In every step of the run that `owner` takes, the bucket's rows stay as they were. */
  ghost predicate FencedThroughout(cfg: Config, s: System, steps: seq<Step>, owner: Owner, column: nat)
    requires cfg.Valid()
    decreases |steps|
  {
    steps == [] || (Can(cfg, s, steps[0])
      && (ActsFor(s, steps[0], owner) ==> SameBucket(s.tables, Apply(cfg, s, steps[0]).tables, column))
      && FencedThroughout(cfg, Apply(cfg, s, steps[0]), steps[1..], owner, column))
  }

  /** Fencing: once another owner holds a bucket, a former owner that does not claim again changes nothing in
      it, however its calls, begun before or after the handover, interleave with everything else. */
  lemma {:induction false} FormerOwnerIsFenced(
    cfg: Config, s: System, steps: seq<Step>, t: System, owner: Owner, column: nat)
    requires cfg.Valid() && Inv(cfg, s) && Runs(cfg, s, steps, t) && HeldByOther(s.tables, column, owner)
    requires forall step | step in steps :: !(step.Claim? && step.owner == owner)
    ensures FencedThroughout(cfg, s, steps, owner, column)
    ensures HeldByOther(t.tables, column, owner)
    decreases |steps|
  {
    if steps != [] {
      var next := Apply(cfg, s, steps[0]);
      if ActsFor(s, steps[0], owner) { FencedStep(cfg, s, steps[0], owner, column); }
      LeaseMoves(cfg, s, steps[0], column);
      assert steps[0] in steps;
      StepKeeps(cfg, s, steps[0]);
      FormerOwnerIsFenced(cfg, next, steps[1..], t, owner, column);
    }
  }

  // ---- where the assumptions are needed ----

  /** INSERT looks only at the pending table, so the tables stay disjoint, and replay free of conflicts,
      exactly when the key of the new row is not that of a dead letter. */
  lemma KeyReuse(cfg: Config, t: Tables, ev: NewEvent, now: nat, generated: nat)
    requires cfg.Valid() && t.pending.Keys !! t.dead.Keys
    requires EnqueueTx(cfg, t, ev, now, generated).Ok?
    ensures var u := EnqueueTx(cfg, t, ev, now, generated).value;
      var unused := RowKey(cfg, ev, now, generated) !in t.dead;
      && (unused <==> u.pending.Keys !! u.dead.Keys)
      && (unused <==> forall k :: ReplayTx(u, k) != Err(Conflict))
  {
    var u := EnqueueTx(cfg, t, ev, now, generated).value;
    var key := RowKey(cfg, ev, now, generated);
    if key in t.dead {
      assert key in u.pending && key in u.dead;
      assert ReplayTx(u, key) == Err(Conflict);
    } else {
      forall k ensures ReplayTx(u, k) != Err(Conflict) { assert k in u.dead ==> k !in u.pending; }
    }
  }

  /** At some delivery of `f`, row `e` had been neither delivered nor parked. */
  ghost predicate Overtaken(s: System, e: Key, f: Key) {
    exists j | 0 <= j < |s.log| :: s.log[j].Delivered? && s.log[j].event.key == f && !Settled(s, j, e)
  }

  /** The order of commits decides: a row created earlier is overtaken by each delivery made before its own commit. */
  lemma OvertakenWhenLate(cfg: Config, s: System, e: Key, j: nat)
    requires cfg.Valid() && Reachable(cfg, s) && e in s.enqueued && j < |s.log|
    ensures j <= s.enqueued[e].commit ==> !Settled(s, j, e)
  {
    ReachableInv(cfg, s);
    forall i | 0 <= i < j && Settles(s.log[i], e) ensures s.enqueued[e].commit < j {
      assert Timely(s, s.log[i], i);
    }
  }

  lemma {:induction false} RunLater(cfg: Config, s: System, steps: seq<Step>, t: System)
    requires cfg.Valid() && Runs(cfg, s, steps, t)
    ensures Later(s, t)
    decreases |steps|
  {
    if steps != [] {
      var next := Apply(cfg, s, steps[0]);
      StepLater(cfg, s, steps[0]);
      RunLater(cfg, next, steps[1..], t);
      forall i | 0 <= i < |s.log| ensures t.log[i] == s.log[i] { assert t.log[i] == next.log[i]; }
    }
  }

  lemma OvertakenStays(s: System, t: System, e: Key, f: Key)
    requires Later(s, t) && Overtaken(s, e, f)
    ensures Overtaken(t, e, f)
  {
    var j: nat :| j < |s.log| && s.log[j].Delivered? && s.log[j].event.key == f && !Settled(s, j, e);
    assert t.log[j] == s.log[j];
    forall i | 0 <= i < j ensures !Settles(t.log[i], e) { assert t.log[i] == s.log[i]; }
  }

  /** An enqueueing of `ev` that succeeds and gives its row the key `e`. */
  ghost predicate Enters(cfg: Config, s: System, ev: NewEvent, now: nat, generated: nat, e: Key)
    requires cfg.Valid()
  {
    && e == RowKey(cfg, ev, now, generated) && e !in s.enqueued
    && EnqueueTx(cfg, s.tables, ev, now, generated).Ok?
  }

  lemma EnteredIsOvertaken(cfg: Config, s: System, ev: NewEvent, now: nat, generated: nat, e: Key, f: Key)
    requires cfg.Valid() && Reachable(cfg, s) && WasDelivered(s, f) && Enters(cfg, s, ev, now, generated, e)
    ensures var t := ApplyEnqueue(cfg, s, ev, now, generated);
      Reachable(cfg, t) && e in t.enqueued && t.enqueued[e].content == RowContent(ev) && Overtaken(t, e, f)
  {
    var step := Enqueue(ev, now, generated);
    var t := ApplyEnqueue(cfg, s, ev, now, generated);
    ReachableNext(cfg, s, step);
    StepLater(cfg, s, step);
    var j: nat :| j < |s.log| && s.log[j].Delivered? && s.log[j].event.key == f;
    OvertakenWhenLate(cfg, t, e, j);
  }

  /** Key order alone does not order deliveries. Wherever a row has been delivered, a row of its partition key with a
      smaller key can still be committed, and however the run goes on, the later row was delivered before the earlier
      one was delivered or parked. */
  lemma LateCommit(
    cfg: Config, s: System, ev: NewEvent, now: nat, generated: nat, e: Key, f: Key, steps: seq<Step>, u: System)
    requires cfg.Valid() && Reachable(cfg, s) && f in s.enqueued && WasDelivered(s, f)
    requires Enters(cfg, s, ev, now, generated, e) && Less(e, f)
    requires ev.content.partitionKey == s.enqueued[f].content.partitionKey
    requires Runs(cfg, ApplyEnqueue(cfg, s, ev, now, generated), steps, u)
    ensures Reachable(cfg, u) && e in u.enqueued && f in u.enqueued
    ensures u.enqueued[e].content.partitionKey == u.enqueued[f].content.partitionKey
    ensures Overtaken(u, e, f)
  {
    var t := ApplyEnqueue(cfg, s, ev, now, generated);
    EnteredIsOvertaken(cfg, s, ev, now, generated, e, f);
    StepLater(cfg, s, Enqueue(ev, now, generated));
    RunLater(cfg, t, steps, u);
    OvertakenStays(t, u, e, f);
    ReachableOn(cfg, t, steps, u);
  }

  lemma ReachableOn(cfg: Config, s: System, steps: seq<Step>, t: System)
    requires cfg.Valid() && Reachable(cfg, s) && Runs(cfg, s, steps, t)
    ensures Reachable(cfg, t)
  {
    var s0, before :| Initial(s0) && Runs(cfg, s0, before, s);
    RunsThenRuns(cfg, s0, before, s, steps, t);
  }

  lemma ReachableNext(cfg: Config, s: System, step: Step)
    requires cfg.Valid() && Reachable(cfg, s) && Can(cfg, s, step)
    ensures Reachable(cfg, Apply(cfg, s, step))
  {
    var next := Apply(cfg, s, step);
    assert [step][1..] == [];
    assert Runs(cfg, next, [step][1..], next);
    ReachableOn(cfg, s, [step], next);
  }

  // ---- such a run ----

  const LATE_CONFIG := Config(1, 10)
  const LATE_CONTENT := Content([7], "", "{}")
  const EARLIER := Key(0, 1000, 1)
  const LATER := Key(0, 2000, 1)

  function LateEvent(createdAt: nat): NewEvent { NewEvent(Given(1), Some(createdAt), LATE_CONTENT) }

  lemma LateKey(ev: NewEvent)
    requires ev.createdAt.Some? && ev.createdAt.value % 1000 == 0 && ev.id.Given?
    ensures RowKey(LATE_CONFIG, ev, 0, 0) == Key(0, ev.createdAt.value, ev.id.id)
  {
  }

  /** One row is enqueued; then its bucket is leased. */
  function LateStart(leases: map<nat, Lease>): System {
    System(Tables(map[LATER := Row(LATE_CONTENT, 0, None)], leases, map[]),
           map[], {}, [Entered(LATER)], map[LATER := Ticket(LATE_CONTENT, 0)], {}, {})
  }

  const LATE_LEASES := map[0 := Lease("relay", 1000)]

  function LateEmpty(): System { System(Tables(map[], map[], map[]), map[], {}, [], map[], {}, {}) }

  lemma LateEntry(ev: NewEvent)
    requires ev.content == LATE_CONTENT && ev.id == Given(1) && RowKey(LATE_CONFIG, ev, 0, 0) == LATER
    ensures ApplyEnqueue(LATE_CONFIG, LateEmpty(), ev, 0, 0) == LateStart(map[])
  {
    assert RowContent(ev) == LATE_CONTENT;
  }

  lemma LateFirst(ev: NewEvent)
    requires ev.content == LATE_CONTENT && ev.id == Given(1) && RowKey(LATE_CONFIG, ev, 0, 0) == LATER
    ensures Reachable(LATE_CONFIG, LateStart(map[]))
  {
    LateEntry(ev);
    assert Runs(LATE_CONFIG, LateEmpty(), [], LateEmpty());
    ReachableNext(LATE_CONFIG, LateEmpty(), Enqueue(ev, 0, 0));
  }

  lemma LateEnqueue()
    ensures Reachable(LATE_CONFIG, LateStart(map[]))
  {
    LateKey(LateEvent(2000));
    LateFirst(LateEvent(2000));
  }

  lemma LateClaim()
    ensures Reachable(LATE_CONFIG, LateStart(LATE_LEASES))
  {
    LateEnqueue();
    var s := LateStart(map[]);
    assert Leased(s.tables, "relay", 1000, 0, 0) == map[];
    assert Leased(s.tables, "relay", 1000, 0, 1) == LATE_LEASES;
    assert Apply(LATE_CONFIG, s, Claim("relay", 1000, 0)) == LateStart(LATE_LEASES);
    ReachableNext(LATE_CONFIG, s, Claim("relay", 1000, 0));
  }

  const LATE_MESSAGE := Event(LATER, LATE_CONTENT)

  /** A session has read the row and is at its given phase. */
  function LateSession(phase: Phase, sent: set<Event>, log: seq<Happening>): System {
    LateStart(LATE_LEASES).(
      sessions := map[0 := Session("relay", 0, [LATE_MESSAGE], 0, phase, {LATER})],
      sent := sent,
      log := log)
  }

  lemma LateRead()
    ensures Reachable(LATE_CONFIG, LateSession(Checking, {}, [Entered(LATER)]))
  {
    LateClaim();
    var s := LateStart(LATE_LEASES);
    assert IsOldest(s.tables, 0, 1, [LATE_MESSAGE]);
    var t := Apply(LATE_CONFIG, s, Read(0, "relay", 0, 1, 1, [LATE_MESSAGE]));
    assert t.sessions[0].pendingAtRead == {LATER};
    assert t == LateSession(Checking, {}, [Entered(LATER)]);
    ReachableNext(LATE_CONFIG, s, Read(0, "relay", 0, 1, 1, [LATE_MESSAGE]));
  }

  lemma LateCheck()
    ensures Reachable(LATE_CONFIG, LateSession(Publishing, {LATE_MESSAGE}, [Entered(LATER)]))
  {
    LateRead();
    var s := LateSession(Checking, {}, [Entered(LATER)]);
    assert ApplyCheck(s, 0, 1) == LateSession(Publishing, {LATE_MESSAGE}, [Entered(LATER)]);
    ReachableNext(LATE_CONFIG, s, Check(0, 1));
  }

  /** The row has been delivered, and its session is about to delete it. */
  function LateMiddle(): System {
    LateSession(Deleting, {LATE_MESSAGE}, [Entered(LATER), Delivered(LATE_MESSAGE)])
  }

  lemma LateBroker(s: System)
    requires s == LateSession(Publishing, {LATE_MESSAGE}, [Entered(LATER)])
    ensures InPhase(s, 0) && ApplyBroker(s, 0, None) == LateMiddle()
  {
    assert s.log + [Delivered(LATE_MESSAGE)] == [Entered(LATER), Delivered(LATE_MESSAGE)];
  }

  lemma LateDelivery()
    ensures Reachable(LATE_CONFIG, LateMiddle())
  {
    LateCheck();
    var s := LateSession(Publishing, {LATE_MESSAGE}, [Entered(LATER)]);
    LateBroker(s);
    ReachableNext(LATE_CONFIG, s, Broker(0, None));
  }

  /** The premise of LateCommit can be met: here a smaller key is about to be committed when the larger one has been
      delivered. */
  lemma LateCommitHappens()
    ensures Reachable(LATE_CONFIG, LateMiddle()) && LATER in LateMiddle().enqueued
    ensures WasDelivered(LateMiddle(), LATER) && Less(EARLIER, LATER)
    ensures Enters(LATE_CONFIG, LateMiddle(), LateEvent(1000), 0, 0, EARLIER)
    ensures LateMiddle().enqueued[LATER].content.partitionKey == LateEvent(1000).content.partitionKey
  {
    LateDelivery();
    LateKey(LateEvent(1000));
    assert LateMiddle().log[1] == Delivered(LATE_MESSAGE);
  }

  lemma {:induction false} RunsThenRuns(
    cfg: Config, s: System, first: seq<Step>, t: System, second: seq<Step>, u: System)
    requires cfg.Valid() && Runs(cfg, s, first, t) && Runs(cfg, t, second, u)
    ensures Runs(cfg, s, first + second, u)
    decreases |first|
  {
    if first == [] {
      assert first + second == second;
    } else {
      RunsThenRuns(cfg, Apply(cfg, s, first[0]), first[1..], t, second, u);
      assert (first + second)[1..] == first[1..] + second;
    }
  }
}
