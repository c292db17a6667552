/** ydb/outbox.go: OutboxStore over its three tables. Each method body is one transaction, proved equal
    to its specification in OutboxTables. */
module OutboxStores {
  import opened Basics
  import opened OrderedReads
  import opened OutboxProtocol
  import opened OutboxSafety
  import opened OutboxTables
  import opened PublishErrors
  import opened TableEffects

  /** The first `n` rows scanned. */
  function Scanned(pending: map<Key, Row>, keys: seq<Key>, n: nat): (events: seq<Event>)
    requires n <= |keys| && forall i | 0 <= i < |keys| :: keys[i] in pending
  {
    seq(n, i requires 0 <= i < n => Event(keys[i], pending[keys[i]].content))
  }

  lemma ScannedIsOldest(t: Tables, column: nat, limit: nat, keys: seq<Key>)
    requires IsFirst((set k | k in t.pending && k.bucket == column), limit, keys)
    ensures IsOldest(t, column, limit, Scanned(t.pending, keys, |keys|))
  {
    var batch := Scanned(t.pending, keys, |keys|);
    forall k | k in t.pending && k.bucket == column && k in keys
      ensures exists i | 0 <= i < |batch| :: batch[i].key == k
    {
      var i :| 0 <= i < |keys| && keys[i] == k;
      assert batch[i].key == k;
    }
  }

  class OutboxStore {
    const cfg: Config
    var pending: map<Key, Row>
    var leases: map<nat, Lease>
    var dead: map<Key, DeadRow>

    function T(): Tables
      reads this
    {
      Tables(pending, leases, dead)
    }

    constructor (bucketCount: int, maxAttempts: int)
      ensures cfg == NewConfig(bucketCount, maxAttempts) && T() == Tables(map[], map[], map[])
    {
      cfg := NewConfig(bucketCount, maxAttempts);
      pending, leases, dead := map[], map[], map[];
    }

    method EnqueueTx(ev: NewEvent, now: nat, generated: nat) returns (r: Result<Event, EnqueueError>)
      requires cfg.Valid()
      modifies this
      ensures match OutboxTables.EnqueueTx(cfg, old(T()), ev, now, generated)
              case Ok(t) => T() == t && r == Ok(Event(RowKey(cfg, ev, now, generated), RowContent(ev)))
              case Err(e) => T() == old(T()) && r == Err(e)
      ensures r.Ok? ==> AsGiven(cfg, ev, now, generated, r.value.key, r.value.content) && r.value.key in pending
    {
      if ev.content.partitionKey == [] { return Err(NoPartitionKey); }
      var id := generated;
      match ev.id {
        case Malformed => return Err(BadId);
        case Given(given) => id := given;
        case Generate =>
      }
      var bucket := BucketOf(ev.content.partitionKey, cfg.bucketCount);
      var createdAt := if ev.createdAt.None? then Micro(now) else Micro(ev.createdAt.value);
      var content := if ev.content.payload == "" then ev.content.(payload := "{}") else ev.content;
      var key := Key(Column(bucket), createdAt, id);
      if key in pending { return Err(KeyTaken); }
      pending := pending[key := Row(content, 0, None)];
      return Ok(Event(key, content));
    }

    method ClaimBuckets(owner: Owner, ttl: nat, stamp: nat) returns (owned: seq<nat>)
      modifies this
      ensures T() == ClaimTx(cfg, old(T()), owner, ttl, stamp)
      ensures owned == Claimed(old(T()), owner, stamp, cfg.bucketCount)
      ensures forall b: nat | b < cfg.bucketCount :: b in owned <==> Free(old(T()), b % 256, owner, stamp)
    {
      var before := leases;
      var lockedUntil := Micro(stamp + ttl);
      owned := [];
      for bucket := 0 to cfg.bucketCount
        invariant pending == old(pending) && dead == old(dead)
        invariant leases == Leased(old(T()), owner, lockedUntil, stamp, bucket)
        invariant owned == Claimed(old(T()), owner, stamp, bucket)
      {
        var c := Column(bucket);
        if c in before && before[c].holder != owner && stamp < before[c].until { continue; }
        leases := leases[c := Lease(owner, lockedUntil)];
        owned := owned + [bucket];
      }
      forall b: nat | b < cfg.bucketCount ensures b in owned <==> Free(old(T()), b % 256, owner, stamp) {
        ClaimTakesTheFree(cfg, old(T()), owner, ttl, stamp, b);
      }
    }

    method LeaseHeld(bucket: nat, owner: Owner, stamp: nat) returns (held: bool)
      ensures held <==> Held(T(), bucket, owner, stamp)
      ensures held <==> LeaseRuns(T(), bucket % 256, owner, stamp)
    {
      var c := Column(bucket);
      held := c in leases && leases[c].holder == owner && stamp < leases[c].until;
    }

    method LeasedBucketEvents(bucket: nat, owner: Owner, limit: nat, stamp: nat) returns (events: seq<Event>)
      ensures IsBatch(T(), bucket, owner, limit, stamp, events)
    {
      events := [];
      var held := LeaseHeld(bucket, owner, stamp);
      if !held { return; }
      var keys := First((set k | k in pending && k.bucket == Column(bucket)), limit);
      for i := 0 to |keys|
        invariant events == Scanned(pending, keys, i)
      {
        events := events + [Event(keys[i], pending[keys[i]].content)];
      }
      ScannedIsOldest(T(), Column(bucket), limit, keys);
    }

    method DeleteEvent(key: Key, owner: Owner, stamp: nat) returns (held: bool)
      modifies this
      ensures match DeleteTx(old(T()), key, owner, stamp)
              case None => !held && T() == old(T())
              case Some(t) => held && T() == t
    {
      held := LeaseHeld(key.bucket, owner, stamp);
      if held { pending := pending - {key}; }
    }

    /** The result is None when the lease was lost, otherwise whether the row was parked. */
    method RecordPublishFailure(key: Key, owner: Owner, publishErr: Error, message: string, stamp: nat, failedAt: nat)
      returns (deadLettered: Option<bool>)
      modifies this
      ensures match RecordTx(cfg, old(T()), key, owner, Classify(publishErr), message, stamp, failedAt)
              case LeaseLost => deadLettered == None && T() == old(T())
              case Done(t, parked) => deadLettered == Some(parked) && T() == t
      ensures deadLettered == None <==> !LeaseRuns(old(T()), key.bucket % 256, owner, stamp)
      ensures deadLettered == Some(true) <==>
        && LeaseRuns(old(T()), key.bucket % 256, owner, stamp) && key in old(pending)
        && LastFailure(publishErr, old(pending)[key].attempts, cfg.maxAttempts)
      ensures deadLettered == Some(true) ==> key in dead && key !in pending
      ensures deadLettered == Some(false) && key in old(pending) ==> key in pending
    {
      ClassifyIsSeverity(publishErr);
      var held := LeaseHeld(key.bucket, owner, stamp);
      if !held { return None; }
      if key !in pending { return Some(false); }
      var row := pending[key];
      var kind := Classify(publishErr);
      if kind == TransientClass {
        pending := pending[key := row.(lastError := Some(message))];
        return Some(false);
      }
      var attempts := row.attempts + 1;
      if kind != PermanentClass && attempts < cfg.maxAttempts {
        pending := pending[key := row.(attempts := attempts, lastError := Some(message))];
        return Some(false);
      }
      dead := dead[key := DeadRow(row.content, attempts, message, failedAt)];
      pending := pending - {key};
      return Some(true);
    }

    method ReplayDeadLetter(ref: Ref) returns (r: Result<ReplayState, ReplayError>)
      requires cfg.Valid()
      modifies this
      ensures if !ValidRef(cfg, ref) then r == Err(BadRef) && T() == old(T())
              else match ReplayTx(old(T()), RefKey(cfg, ref))
              case Ok((t, state)) => r == Ok(state) && T() == t
              case Err(e) => r == Err(e) && T() == old(T())
      ensures r == Err(BadRef) <==>
        ref.bucket < 0 || ref.bucket >= cfg.bucketCount || ref.createdAt == None || ref.id == None
    {
      if ref.bucket < 0 || ref.bucket >= cfg.bucketCount || ref.createdAt.None? || ref.id.None? {
        return Err(BadRef);
      }
      var key := Key(Column(ref.bucket), Micro(ref.createdAt.value), ref.id.value);
      var isPending := key in pending;
      if key !in dead {
        if isPending { return Ok(AlreadyPending); }
        return Err(NotFound);
      }
      if isPending { return Err(Conflict); }
      pending := pending[key := Row(dead[key].content, 0, None)];
      dead := dead - {key};
      return Ok(ReplayState.Requeued);
    }
  }

  // ---- PublishBucket among everybody else ----

  /** What PublishBucket returns when it loses its lease, when the database fails, and when a publish fails. */
  const LOST_LEASE: Error := Transient(Some(Wrap(Leaf("outbox bucket lease lost"))), 0)
  const DATABASE_ERROR: Error := Wrap(Leaf("database"))

  function PublishFailure(publishErr: Error, deadLettered: bool): Error {
    Wrap(if deadLettered then DeadLettered(Some(publishErr)) else publishErr)
  }

  /** The relay stops retrying a row on a terminal error, and the error of a failed publish is terminal exactly when the
      call reports the row as parked or when the publisher's own error already claimed so. Hence it is terminal exactly
      for rows reported as parked if and only if no publisher error carries that mark. */
  lemma TerminalMeansParked(publishErr: Error)
    ensures forall parked :: IsTerminal(PublishFailure(publishErr, parked)) <==> parked || AsDeadLettered(publishErr)
    ensures (forall parked :: IsTerminal(PublishFailure(publishErr, parked)) == parked) <==> !AsDeadLettered(publishErr)
  {
    ClassifyIsSeverity(publishErr);
    forall parked ensures IsTerminal(PublishFailure(publishErr, parked)) <==> parked || AsDeadLettered(publishErr) {
      ClassifyIsSeverity(PublishFailure(publishErr, parked));
    }
    assert IsTerminal(PublishFailure(publishErr, false)) <==> AsDeadLettered(publishErr);
  }

  predicate HeldBy(s: System, sid: nat, stamp: nat)
    requires InPhase(s, sid)
  {
    Held(s.tables, Current(s, sid).key.bucket, s.sessions[sid].owner, stamp)
  }

  /** The transaction that records the failure of the session's publish. */
  function Recording(cfg: Config, s: System, step: Step): Recorded
    requires step.Record? && InPhase(s, step.sid) && s.sessions[step.sid].phase.Recording?
  {
    var x := s.sessions[step.sid];
    RecordTx(cfg, s.tables, Current(s, step.sid).key, x.owner, Classify(x.phase.error), step.message,
             step.stamp, step.failedAt)
  }

  /** What PublishBucket returns after a step of its session, or None when it goes on. A session that is left before its
      next transaction commits is left with a database error, and so is one whose transaction committed without its
      reply arriving. */
  function Reported(cfg: Config, s: System, step: Step): Option<Error>
    requires cfg.Valid() && Can(cfg, s, step)
  {
    match step
    case Check(sid, stamp) => if HeldBy(s, sid, stamp) then None else Some(LOST_LEASE)
    case Delete(sid, stamp, acked) =>
      if !HeldBy(s, sid, stamp) then Some(LOST_LEASE) else if acked then None else Some(DATABASE_ERROR)
    case Record(sid, _, _, _, acked) =>
      (match Recording(cfg, s, step)
       case LeaseLost => Some(LOST_LEASE)
       case Done(_, parked) =>
         Some(if acked then PublishFailure(s.sessions[sid].phase.error, parked) else DATABASE_ERROR))
    case Leave(_) => Some(DATABASE_ERROR)
    case _ => None
  }

  /** A turn of the loop returns a terminal error exactly when its last transaction was known to commit and parked the
      row, or kept it although the publisher's error carried the mark. */
  lemma ReportedTerminal(cfg: Config, s: System, step: Step)
    requires cfg.Valid() && Can(cfg, s, step) && Reported(cfg, s, step).Some?
    ensures IsTerminal(Reported(cfg, s, step).value) <==>
      && step.Record? && step.acked && Recording(cfg, s, step).Done?
      && (Recording(cfg, s, step).deadLettered || AsDeadLettered(s.sessions[step.sid].phase.error))
  {
    PlainErrors();
    if step.Record? { TerminalMeansParked(s.sessions[step.sid].phase.error); }
  }

  lemma PlainErrors()
    ensures !IsTerminal(LOST_LEASE) && !IsTerminal(DATABASE_ERROR)
    ensures Classify(LOST_LEASE) == TransientClass && Classify(DATABASE_ERROR) == Unknown
  {
    ClassifyIsSeverity(LOST_LEASE);
    ClassifyIsSeverity(DATABASE_ERROR);
  }

  lemma {:induction false} RunsExtend(cfg: Config, s: System, steps: seq<Step>, t: System, step: Step)
    requires cfg.Valid() && Runs(cfg, s, steps, t) && Can(cfg, t, step)
    ensures Runs(cfg, s, steps + [step], Apply(cfg, t, step))
    decreases |steps|
  {
    if steps == [] {
      assert (steps + [step])[1..] == [];
    } else {
      RunsExtend(cfg, Apply(cfg, s, steps[0]), steps[1..], t, step);
      assert (steps + [step])[1..] == steps[1..] + [step];
    }
  }

  predicate IsStepOf(step: Step, sid: nat) {
    match step
    case Read(i, _, _, _, _, _) => i == sid
    case Check(i, _) => i == sid
    case Broker(i, _) => i == sid
    case Delete(i, _, _) => i == sid
    case Record(i, _, _, _, _) => i == sid
    case Leave(i) => i == sid
    case _ => false
  }

  /** The call was cut short by the database: it left without its next transaction, or one whose reply was lost. */
  predicate Broken(step: Step) {
    match step
    case Leave(_) => true
    case Delete(_, _, acked) => !acked
    case Record(_, _, _, _, acked) => !acked
    case _ => false
  }

  /** The last step of a call and the state it was taken in. */
  datatype Ending = Ending(was: System, step: Step)

  /** The call ended with a step of its session in state `now`, and returned what that step makes it return. */
  ghost predicate Ends(cfg: Config, sid: nat, end: Ending, now: System, failure: Option<Error>)
    requires cfg.Valid()
  {
    && IsStepOf(end.step, sid) && Can(cfg, end.was, end.step) && now == Apply(cfg, end.was, end.step)
    && failure == Reported(cfg, end.was, end.step)
  }

  /** What the broker has taken stays taken. */
  ghost predicate KeepsDeliveries(s: System, t: System) {
    forall key | WasDelivered(s, key) :: WasDelivered(t, key)
  }

  lemma LaterKeepsDeliveries(s: System, t: System)
    requires Later(s, t)
    ensures KeepsDeliveries(s, t)
  {
    forall key | WasDelivered(s, key) ensures WasDelivered(t, key) { LaterDelivered(s, t, key); }
  }

  /** The broker took the first `n` rows of the batch. */
  ghost predicate AllDelivered(s: System, batch: seq<Event>, n: nat)
    requires n <= |batch|
  {
    forall i | 0 <= i < n :: WasDelivered(s, batch[i].key)
  }

  lemma OneMoreDelivered(s: System, t: System, batch: seq<Event>, n: nat)
    requires n < |batch| && AllDelivered(s, batch, n) && KeepsDeliveries(s, t)
    ensures AllDelivered(t, batch, n)
    ensures WasDelivered(t, batch[n].key) ==> AllDelivered(t, batch, n + 1)
  {
  }

  /** The session is as it was. */
  predicate Undisturbed(sid: nat, s: System, t: System) {
    && (sid in t.sessions <==> sid in s.sessions)
    && (sid in t.sessions ==> t.sessions[sid] == s.sessions[sid])
  }

  lemma OthersLeaveSession(cfg: Config, s: System, step: Step, sid: nat)
    requires cfg.Valid() && Can(cfg, s, step) && !IsStepOf(step, sid)
    ensures Undisturbed(sid, s, Apply(cfg, s, step))
  {
  }

  /** The steps so far are followed by others. */
  ghost predicate Extends(before: seq<Step>, after: seq<Step>) {
    |before| <= |after| && forall i | 0 <= i < |before| :: after[i] == before[i]
  }

  /** At position `n` of the run the session reads this batch. */
  ghost predicate ReadsAt(
    trace: seq<Step>, n: nat, sid: nat, owner: Owner, bucket: nat, limit: int, batch: seq<Event>)
  {
    n < |trace| && trace[n].Read? && trace[n] == Read(sid, owner, bucket, limit, trace[n].stamp, batch)
  }

  /** A store shared with other relays, writers and operators. `system` is what an observer of all of them
      sees; its tables are the store's. */
  class Deployment {
    const store: OutboxStore
    var system: System
    /** How often the database has failed a call. */
    ghost var faults: nat

    ghost predicate Valid()
      reads this, store
    {
      store.cfg.Valid() && system.tables == store.T()
    }

    constructor (bucketCount: int, maxAttempts: int)
      ensures Valid() && Initial(system)
    {
      store := new OutboxStore(bucketCount, maxAttempts);
      system := System(Tables(map[], map[], map[]), map[], {}, [], map[], {}, {});
      faults := 0;
    }

    /** The database may fail before a transaction commits, or after it without the reply arriving. */
    method Fault() returns (broken: bool)
      modifies `faults
      ensures faults == old(faults) + if broken then 1 else 0
    {
      broken := *;
      if broken { faults := faults + 1; }
    }

    /** The state is reached from `start` by the steps so far. */
    ghost predicate Traced(start: System, trace: seq<Step>)
      reads this, store
    {
      Valid() && Runs(store.cfg, start, trace, system)
    }

    /** Record a step in `system`; the store's tables are the caller's business. */
    method Step(step: Step, ghost start: System, ghost before: seq<Step>) returns (ghost trace: seq<Step>)
      requires store.cfg.Valid() && Runs(store.cfg, start, before, system) && Can(store.cfg, system, step)
      modifies `system
      ensures system == Apply(store.cfg, old(system), step) && KeepsDeliveries(old(system), system)
      ensures Runs(store.cfg, start, trace, system) && trace == before + [step]
    {
      RunsExtend(store.cfg, start, before, system, step);
      StepLater(store.cfg, system, step);
      LaterKeepsDeliveries(system, Apply(store.cfg, system, step));
      trace := before + [step];
      system := Apply(store.cfg, system, step);
    }

    method OtherStep(sid: nat, step: Step, ghost start: System, ghost before: seq<Step>)
      returns (ghost trace: seq<Step>)
      requires Traced(start, before) && Can(store.cfg, system, step) && !IsStepOf(step, sid)
      modifies `system, store
      ensures Traced(start, trace) && Extends(before, trace)
      ensures KeepsDeliveries(old(system), system) && Undisturbed(sid, old(system), system)
    {
      OthersLeaveSession(store.cfg, system, step, sid);
      trace := Step(step, start, before);
      store.pending, store.leases, store.dead := system.tables.pending, system.tables.leases, system.tables.dead;
    }

    /** Any number of steps of anybody but session `sid`. */
    method Others(sid: nat, ghost start: System, ghost before: seq<Step>) returns (ghost trace: seq<Step>)
      requires Traced(start, before)
      modifies `system, store
      ensures Traced(start, trace) && Extends(before, trace)
      ensures KeepsDeliveries(old(system), system) && Undisturbed(sid, old(system), system)
    {
      trace := before;
      var n: nat := *;
      while n > 0
        invariant Traced(start, trace) && Extends(before, trace) && KeepsDeliveries(old(system), system)
        invariant Undisturbed(sid, old(system), system)
      {
        n := n - 1;
        var step: Step := *;
        if Can(store.cfg, system, step) && !IsStepOf(step, sid) {
          trace := OtherStep(sid, step, start, trace);
        }
      }
    }

    ghost predicate At(sid: nat, x: Session)
      reads this
    {
      sid in system.sessions && system.sessions[sid] == x
    }

    /** The session works on `event` for `owner`. */
    ghost predicate WorksOn(sid: nat, x: Session, owner: Owner, event: Event)
      reads this
    {
      At(sid, x) && x.owner == owner && x.published < |x.batch| && x.batch[x.published] == event
    }

    method ReadStep(sid: nat, owner: Owner, bucket: nat, limit: int, ghost start: System, ghost before: seq<Step>)
      returns (events: seq<Event>, ghost trace: seq<Step>)
      requires Traced(start, before) && sid !in system.sessions
      modifies `system
      ensures Traced(start, trace) && Extends(before, trace)
      ensures |events| <= EffectiveLimit(limit) && sid in system.sessions
      ensures At(sid, Session(owner, bucket, events, 0, Checking, system.sessions[sid].pendingAtRead))
      ensures ReadsAt(trace, |before|, sid, owner, bucket, limit, events)
    {
      var stamp: nat := *;
      events := store.LeasedBucketEvents(bucket, owner, EffectiveLimit(limit), stamp);
      trace := Step(Read(sid, owner, bucket, limit, stamp, events), start, before);
    }

    method CheckStep(
      sid: nat, ghost x: Session, owner: Owner, event: Event, ghost start: System, ghost before: seq<Step>)
      returns (failure: Option<Error>, ghost end: Ending, ghost trace: seq<Step>)
      requires Traced(start, before) && WorksOn(sid, x, owner, event) && x.phase.Checking?
      modifies `system
      ensures Traced(start, trace) && Extends(before, trace) && KeepsDeliveries(old(system), system)
      ensures Ends(store.cfg, sid, end, system, failure)
      ensures old(faults) <= faults && (failure != None && faults == old(faults) ==> !Broken(end.step))
      ensures if failure == None then At(sid, x.(phase := Publishing)) else sid !in system.sessions
    {
      var stamp: nat := *;
      var held := store.LeaseHeld(event.key.bucket, owner, stamp);
      end := Ending(system, Check(sid, stamp));
      trace := Step(Check(sid, stamp), start, before);
      failure := if held then None else Some(LOST_LEASE);
    }

    method BrokerStep(sid: nat, ghost x: Session, ghost start: System, ghost before: seq<Step>)
      returns (failure: Option<Error>, ghost trace: seq<Step>)
      requires Traced(start, before) && At(sid, x) && x.phase.Publishing? && x.published < |x.batch|
      modifies `system
      ensures Traced(start, trace) && Extends(before, trace) && KeepsDeliveries(old(system), system)
      ensures failure == None ==> At(sid, x.(phase := Deleting)) && WasDelivered(system, x.batch[x.published].key)
      ensures failure != None ==> At(sid, x.(phase := Phase.Recording(failure.value)))
    {
      failure := *;
      trace := Step(Broker(sid, failure), start, before);
      if failure == None {
        assert system.log[|system.log| - 1].Delivered?;
      }
    }

    method DeleteStep(
      sid: nat, ghost x: Session, owner: Owner, event: Event, ghost start: System, ghost before: seq<Step>)
      returns (failure: Option<Error>, ghost end: Ending, ghost trace: seq<Step>)
      requires Traced(start, before) && WorksOn(sid, x, owner, event) && x.phase.Deleting?
      modifies this, store
      ensures Traced(start, trace) && Extends(before, trace) && KeepsDeliveries(old(system), system)
      ensures Ends(store.cfg, sid, end, system, failure)
      ensures old(faults) <= faults && (failure != None && faults == old(faults) ==> !Broken(end.step))
      ensures failure == None ==> At(sid, x.(published := x.published + 1, phase := Checking))
      ensures failure != None ==> sid !in system.sessions
    {
      var stamp: nat := *;
      var broken := Fault();
      var acked := !broken;
      var held := store.DeleteEvent(event.key, owner, stamp);
      end := Ending(system, Delete(sid, stamp, acked));
      trace := Step(Delete(sid, stamp, acked), start, before);
      failure := if !held then Some(LOST_LEASE) else if !acked then Some(DATABASE_ERROR) else None;
    }

    method RecordStep(
      sid: nat, ghost x: Session, owner: Owner, event: Event, publishErr: Error,
      ghost start: System, ghost before: seq<Step>)
      returns (failure: Error, ghost end: Ending, ghost trace: seq<Step>)
      requires Traced(start, before) && WorksOn(sid, x, owner, event) && x.phase == Phase.Recording(publishErr)
      modifies this, store
      ensures Traced(start, trace) && Extends(before, trace)
      ensures KeepsDeliveries(old(system), system) && sid !in system.sessions
      ensures Ends(store.cfg, sid, end, system, Some(failure))
      ensures old(faults) <= faults && (faults == old(faults) ==> !Broken(end.step))
    {
      var stamp: nat := *;
      var failedAt: nat := *;
      var message: string := *;
      var broken := Fault();
      var acked := !broken;
      var deadLettered := store.RecordPublishFailure(event.key, owner, publishErr, message, stamp, failedAt);
      end := Ending(system, Record(sid, stamp, failedAt, message, acked));
      trace := Step(Record(sid, stamp, failedAt, message, acked), start, before);
      failure := if deadLettered == None then LOST_LEASE
                 else if !acked then DATABASE_ERROR
                 else PublishFailure(publishErr, deadLettered.value);
    }

    /** Return from PublishBucket, or fail before the next transaction commits anything. */
    method LeaveStep(sid: nat, ghost start: System, ghost before: seq<Step>)
      returns (ghost end: Ending, ghost trace: seq<Step>)
      requires Traced(start, before) && sid in system.sessions
      modifies `system
      ensures Traced(start, trace) && Extends(before, trace)
      ensures KeepsDeliveries(old(system), system) && sid !in system.sessions
      ensures Ends(store.cfg, sid, end, system, Some(DATABASE_ERROR))
    {
      end := Ending(system, Leave(sid));
      trace := Step(Leave(sid), start, before);
    }

    /** PublishBucket with every other actor running between any two of its transactions. Clock readings, broker
        answers and database failures are arbitrary. What it does is a run of the protocol, so everything proved
        of runs holds of it; it reports as published only rows the broker took, and all of the batch unless it
        reports an error, which is the one its last step makes it report. Unless the database failed that is a lost
        lease or a failed publish. The batch is what the call read in that run. */
    method PublishBucket(sid: nat, bucket: nat, owner: Owner, limit: int)
      returns (
        published: nat, failure: Option<Error>, ghost batch: seq<Event>, ghost end: Option<Ending>,
        ghost readAt: Option<nat>, ghost trace: seq<Step>)
      requires Valid() && sid !in system.sessions
      modifies this, store
      ensures Traced(old(system), trace) && sid !in system.sessions
      ensures published <= |batch| <= EffectiveLimit(limit) && AllDelivered(system, batch, published)
      ensures if readAt.Some? then ReadsAt(trace, readAt.value, sid, owner, bucket, limit, batch) else batch == []
      ensures failure == None ==> published == |batch| && readAt.Some?
      ensures failure != None ==>
        if end == None then failure.value == DATABASE_ERROR && readAt == None
        else Ends(store.cfg, sid, end.value, system, failure)
      ensures failure != None && faults == old(faults) ==> end.Some? && !Broken(end.value.step)
    {
      published, failure, batch, end, readAt, trace := 0, None, [], None, None, [];
      ghost var start := system;
      trace := Others(sid, start, trace);
      var broken := Fault();
      if broken { return 0, Some(DATABASE_ERROR), [], None, None, trace; }
      var events;
      readAt := Some(|trace|);
      events, trace := ReadStep(sid, owner, bucket, limit, start, trace);
      batch := events;
      ghost var x := system.sessions[sid];
      while published < |events|
        invariant Traced(start, trace) && failure == None && old(faults) <= faults
        invariant published <= |events| && At(sid, x.(published := published))
        invariant AllDelivered(system, events, published)
        invariant ReadsAt(trace, readAt.value, sid, owner, bucket, limit, events)
        decreases |events| - published
      {
        ghost var was := system;
        ghost var last;
        failure, last, trace := PublishOne(sid, x.(published := published), owner, events[published], start, trace);
        OneMoreDelivered(was, system, events, published);
        if failure != None { return published, failure, batch, Some(last), readAt, trace; }
        published := published + 1;
      }
      ghost var left;
      left, trace := LeaveStep(sid, start, trace);
    }

    /** One turn of the loop: check the lease, publish, then delete the row or record the failure. */
    method PublishOne(
      sid: nat, ghost x: Session, owner: Owner, event: Event, ghost start: System, ghost before: seq<Step>)
      returns (failure: Option<Error>, ghost end: Ending, ghost trace: seq<Step>)
      requires Traced(start, before) && WorksOn(sid, x, owner, event) && x.phase.Checking?
      modifies this, store
      ensures Traced(start, trace) && Extends(before, trace) && KeepsDeliveries(old(system), system)
      ensures Ends(store.cfg, sid, end, system, failure)
      ensures old(faults) <= faults && (failure != None && faults == old(faults) ==> !Broken(end.step))
      ensures failure == None ==> At(sid, x.(published := x.published + 1)) && WasDelivered(system, event.key)
      ensures failure != None ==> sid !in system.sessions
    {
      failure, end, trace := CheckFirst(sid, x, owner, event, start, before);
      if failure != None { return; }
      failure, end, trace := PublishAndSettle(sid, x.(phase := Publishing), owner, event, start, trace);
    }

    method CheckFirst(
      sid: nat, ghost x: Session, owner: Owner, event: Event, ghost start: System, ghost before: seq<Step>)
      returns (failure: Option<Error>, ghost end: Ending, ghost trace: seq<Step>)
      requires Traced(start, before) && WorksOn(sid, x, owner, event) && x.phase.Checking?
      modifies this, store
      ensures Traced(start, trace) && Extends(before, trace) && KeepsDeliveries(old(system), system)
      ensures Ends(store.cfg, sid, end, system, failure)
      ensures old(faults) <= faults && (failure != None && faults == old(faults) ==> !Broken(end.step))
      ensures if failure == None then At(sid, x.(phase := Publishing)) else sid !in system.sessions
    {
      trace := Others(sid, start, before);
      var broken := Fault();
      if broken {
        end, trace := LeaveStep(sid, start, trace);
        return Some(DATABASE_ERROR), end, trace;
      }
      failure, end, trace := CheckStep(sid, x, owner, event, start, trace);
    }

    method PublishAndSettle(
      sid: nat, ghost x: Session, owner: Owner, event: Event, ghost start: System, ghost before: seq<Step>)
      returns (failure: Option<Error>, ghost end: Ending, ghost trace: seq<Step>)
      requires Traced(start, before) && WorksOn(sid, x, owner, event) && x.phase.Publishing?
      modifies this, store
      ensures Traced(start, trace) && Extends(before, trace) && KeepsDeliveries(old(system), system)
      ensures Ends(store.cfg, sid, end, system, failure)
      ensures old(faults) <= faults && (failure != None && faults == old(faults) ==> !Broken(end.step))
      ensures failure == None ==>
        At(sid, x.(published := x.published + 1, phase := Checking)) && WasDelivered(system, event.key)
      ensures failure != None ==> sid !in system.sessions
    {
      trace := Others(sid, start, before);
      var publishErr;
      publishErr, trace := BrokerStep(sid, x, start, trace);
      trace := Others(sid, start, trace);
      var broken := Fault();
      if broken {
        end, trace := LeaveStep(sid, start, trace);
        failure := Some(DATABASE_ERROR);
      } else if publishErr.Some? {
        ghost var y := x.(phase := Phase.Recording(publishErr.value));
        var failed;
        failed, end, trace := RecordStep(sid, y, owner, event, publishErr.value, start, trace);
        failure := Some(failed);
      } else {
        failure, end, trace := DeleteStep(sid, x.(phase := Deleting), owner, event, start, trace);
      }
    }
  }
}
