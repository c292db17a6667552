/** What every step keeps, conjunct by conjunct, and so what every run keeps. */
module OutboxSafety {
  import opened PublishErrors
  import opened OutboxTables
  import opened OutboxProtocol

  /** What a step may rely on about the row its session is working on. */
  ghost predicate CurrentIsGood(s: System, step: Step) {
    match step
    case Check(sid, _) => InPhase(s, sid) && Genuine(s, Current(s, sid)) && Cleared(s, Current(s, sid).key)
    case Broker(sid, _) => InPhase(s, sid) && Genuine(s, Current(s, sid)) && Cleared(s, Current(s, sid).key)
    case Accept(event) => Genuine(s, event) && Cleared(s, event.key)
    case Delete(sid, _, _) => InPhase(s, sid) && WasDelivered(s, Current(s, sid).key)
    case _ => true
  }

  lemma CurrentFacts(cfg: Config, s: System, step: Step)
    requires cfg.Valid() && Can(cfg, s, step) && SessionsKept(s) && Ordered(s) && Faithful(cfg, s)
    ensures CurrentIsGood(s, step)
  {
    match step
    case Check(sid, _) => NextIsCleared(s, s.sessions[sid]);
    case Broker(sid, _) => NextIsCleared(s, s.sessions[sid]);
    case Delete(sid, _, _) => assert BatchKept(s, s.sessions[sid]);
    case _ =>
  }

  lemma StepLater(cfg: Config, s: System, step: Step)
    requires cfg.Valid() && Can(cfg, s, step)
    ensures Later(s, Apply(cfg, s, step))
  {
  }

  lemma StepNews(cfg: Config, s: System, step: Step)
    requires cfg.Valid() && Can(cfg, s, step) && CurrentIsGood(s, step)
    ensures NewsIsGood(s, Apply(cfg, s, step))
  {
  }

  lemma EnqueuePlaces(cfg: Config, s: System, ev: NewEvent, now: nat, generated: nat, k: Key)
    requires cfg.Valid() && Can(cfg, s, Enqueue(ev, now, generated)) && Placed(s, k)
    ensures Placed(ApplyEnqueue(cfg, s, ev, now, generated), k)
  {
  }

  lemma DeletePlaces(s: System, sid: nat, stamp: nat, acked: bool, k: Key)
    requires InPhase(s, sid) && Placed(s, k)
    ensures Placed(ApplyDelete(s, sid, stamp, acked), k)
  {
  }

  lemma RecordPlaces(cfg: Config, s: System, sid: nat, stamp: nat, failedAt: nat, message: string, k: Key)
    requires InPhase(s, sid) && s.sessions[sid].phase.Recording? && Placed(s, k)
    ensures Placed(ApplyRecord(cfg, s, sid, stamp, failedAt, message), k)
  {
  }

  lemma ReplayPlaces(s: System, key: Key, k: Key)
    requires Placed(s, k)
    ensures Placed(ApplyReplay(s, key), k)
  {
  }

  lemma StepPlaces(cfg: Config, s: System, step: Step, k: Key)
    requires cfg.Valid() && Can(cfg, s, step) && Placed(s, k)
    ensures Placed(Apply(cfg, s, step), k)
  {
    match step
    case Enqueue(ev, now, generated) => EnqueuePlaces(cfg, s, ev, now, generated, k);
    case Delete(sid, stamp, acked) => DeletePlaces(s, sid, stamp, acked, k);
    case Record(sid, stamp, failedAt, message, _) => RecordPlaces(cfg, s, sid, stamp, failedAt, message, k);
    case Replay(key) => ReplayPlaces(s, key, k);
    case _ =>
  }

  lemma StepConserved(cfg: Config, s: System, step: Step)
    requires cfg.Valid() && Can(cfg, s, step) && Conserved(s)
    ensures Conserved(Apply(cfg, s, step))
  {
    var t := Apply(cfg, s, step);
    forall k ensures Placed(t, k) { StepPlaces(cfg, s, step, k); }
  }

  /** Only the deletion of the row a session works on removes a row. */
  lemma RemovedMoves(cfg: Config, s: System, step: Step, k: Key)
    requires cfg.Valid() && Can(cfg, s, step) && k in Apply(cfg, s, step).removed
    ensures k in s.removed || (step.Delete? && k == Current(s, step.sid).key)
  {
  }

  /** A row becomes a dead letter only by being parked. */
  lemma DeadMoves(cfg: Config, s: System, step: Step, k: Key)
    requires cfg.Valid() && Can(cfg, s, step)
    requires k in Apply(cfg, s, step).tables.dead || k in Apply(cfg, s, step).expired
    ensures var log := Apply(cfg, s, step).log;
      k in s.tables.dead || k in s.expired || (log != [] && log[|log| - 1] == Parked(k))
  {
  }

  lemma StepAccounted(cfg: Config, s: System, step: Step)
    requires cfg.Valid() && Can(cfg, s, step) && Accounted(s) && CurrentIsGood(s, step)
    ensures Accounted(Apply(cfg, s, step))
  {
    var t := Apply(cfg, s, step);
    StepLater(cfg, s, step);
    forall k | k in t.removed ensures WasDelivered(t, k) {
      RemovedMoves(cfg, s, step, k);
      LaterDelivered(s, t, k);
    }
    forall k | k in t.tables.dead || k in t.expired ensures WasParked(t, k) {
      DeadMoves(cfg, s, step, k);
      if k in s.tables.dead || k in s.expired { LaterParked(s, t, k); }
    }
  }

  /** A row in a table was there before with the same content, moved from the other table, or was just enqueued. */
  ghost predicate Origin(s: System, t: System, k: Key, content: Content) {
    || (k in s.tables.pending && content == s.tables.pending[k].content)
    || (k in s.tables.dead && content == s.tables.dead[k].content)
    || (k in t.enqueued && content == t.enqueued[k].content)
  }

  lemma RecordOrigin(cfg: Config, s: System, sid: nat, stamp: nat, failedAt: nat, message: string, k: Key)
    requires InPhase(s, sid) && s.sessions[sid].phase.Recording?
    ensures var t := ApplyRecord(cfg, s, sid, stamp, failedAt, message);
      && (k in t.tables.pending ==> Origin(s, t, k, t.tables.pending[k].content))
      && (k in t.tables.dead ==> Origin(s, t, k, t.tables.dead[k].content))
  {
  }

  lemma PendingOrigin(cfg: Config, s: System, step: Step, k: Key)
    requires cfg.Valid() && Can(cfg, s, step) && k in Apply(cfg, s, step).tables.pending
    ensures var t := Apply(cfg, s, step); Origin(s, t, k, t.tables.pending[k].content)
  {
    if step.Record? { RecordOrigin(cfg, s, step.sid, step.stamp, step.failedAt, step.message, k); }
  }

  lemma DeadOrigin(cfg: Config, s: System, step: Step, k: Key)
    requires cfg.Valid() && Can(cfg, s, step) && k in Apply(cfg, s, step).tables.dead
    ensures var t := Apply(cfg, s, step); Origin(s, t, k, t.tables.dead[k].content)
  {
    if step.Record? { RecordOrigin(cfg, s, step.sid, step.stamp, step.failedAt, step.message, k); }
  }

  /** Only an enqueueing records a row, with the content and at the time it is committed. */
  lemma EnqueuedMoves(cfg: Config, s: System, step: Step, k: Key)
    requires cfg.Valid() && Can(cfg, s, step) && k in Apply(cfg, s, step).enqueued && k !in s.enqueued
    ensures step.Enqueue? && k == RowKey(cfg, step.ev, step.now, step.generated)
    ensures var t := Apply(cfg, s, step);
      t.enqueued[k] == Ticket(RowContent(step.ev), |s.log|) && |t.log| == |s.log| + 1
  {
  }

  predicate TicketFaithful(cfg: Config, s: System, k: Key)
    requires cfg.Valid() && k in s.enqueued
  {
    && s.enqueued[k].commit < |s.log|
    && k.bucket == Column(BucketOf(s.enqueued[k].content.partitionKey, cfg.bucketCount))
  }

  lemma StepTicketFaithful(cfg: Config, s: System, step: Step, k: Key)
    requires cfg.Valid() && Can(cfg, s, step) && k in Apply(cfg, s, step).enqueued
    requires k in s.enqueued ==> TicketFaithful(cfg, s, k)
    ensures TicketFaithful(cfg, Apply(cfg, s, step), k)
  {
    StepLater(cfg, s, step);
    if k !in s.enqueued { EnqueuedMoves(cfg, s, step, k); }
  }

  lemma StepTablesFaithful(cfg: Config, s: System, step: Step)
    requires cfg.Valid() && Can(cfg, s, step) && TablesFaithful(cfg, s)
    ensures TablesFaithful(cfg, Apply(cfg, s, step))
  {
    var t := Apply(cfg, s, step);
    StepLater(cfg, s, step);
    forall k | k in t.enqueued ensures TicketFaithful(cfg, t, k) {
      if k in s.enqueued { assert TicketFaithful(cfg, s, k); }
      StepTicketFaithful(cfg, s, step, k);
    }
    forall k | k in t.tables.pending ensures Origin(s, t, k, t.tables.pending[k].content) {
      PendingOrigin(cfg, s, step, k);
    }
    forall k | k in t.tables.dead ensures Origin(s, t, k, t.tables.dead[k].content) { DeadOrigin(cfg, s, step, k); }
    TablesFaithfulLater(cfg, s, t);
  }

  lemma TablesFaithfulLater(cfg: Config, s: System, t: System)
    requires cfg.Valid() && Later(s, t) && TablesFaithful(cfg, s)
    requires forall k | k in t.tables.pending :: Origin(s, t, k, t.tables.pending[k].content)
    requires forall k | k in t.tables.dead :: Origin(s, t, k, t.tables.dead[k].content)
    requires forall k | k in t.enqueued :: TicketFaithful(cfg, t, k)
    ensures TablesFaithful(cfg, t)
  {
    forall k | k in t.enqueued
      ensures t.enqueued[k].commit < |t.log|
      ensures k.bucket == Column(BucketOf(t.enqueued[k].content.partitionKey, cfg.bucketCount))
    {
      assert TicketFaithful(cfg, t, k);
    }
    forall k | k in t.tables.pending
      ensures k in t.enqueued && t.tables.pending[k].content == t.enqueued[k].content
    {
      assert Origin(s, t, k, t.tables.pending[k].content);
    }
    forall k | k in t.tables.dead ensures k in t.enqueued && t.tables.dead[k].content == t.enqueued[k].content {
      assert Origin(s, t, k, t.tables.dead[k].content);
    }
  }

  lemma FaithfulLater(cfg: Config, s: System, t: System)
    requires Later(s, t) && Faithful(cfg, s) && NewsIsGood(s, t) && TablesFaithful(cfg, t)
    ensures Faithful(cfg, t)
  {
    forall e | e in t.sent ensures Genuine(t, e) {
      assert Genuine(s, e);
    }
    forall i | 0 <= i < |t.log| && t.log[i].Delivered? ensures Genuine(t, t.log[i].event) {
      if i < |s.log| { assert t.log[i] == s.log[i]; }
      assert Genuine(s, t.log[i].event);
    }
    forall i | 0 <= i < |t.log| ensures Timely(t, t.log[i], i) {
      if i < |s.log| { assert t.log[i] == s.log[i] && Timely(s, s.log[i], i); }
    }
  }

  /** The step's news is that the row entered the pending table anew. */
  predicate Renewed(s: System, t: System, k: Key) {
    |t.log| == |s.log| + 1 && (t.log[|s.log|].Entered? || t.log[|s.log|].Requeued?) && t.log[|s.log|].key == k
  }

  /** Rows keep their attempts, except one that enters anew and starts from none. */
  ghost predicate AttemptsKept(s: System, t: System) {
    && (t.log == s.log || (|t.log| == |s.log| + 1 && t.log == s.log + [t.log[|s.log|]] && !t.log[|s.log|].Charged?))
    && (forall k | k in t.tables.pending ::
          if Renewed(s, t, k) then t.tables.pending[k].attempts == 0
          else k in s.tables.pending && t.tables.pending[k].attempts == s.tables.pending[k].attempts)
    && (forall k | k in t.tables.dead ::
          !Renewed(s, t, k) && k in s.tables.dead && t.tables.dead[k].attempts == s.tables.dead[k].attempts)
  }

  lemma EnqueueKeepsAttempts(cfg: Config, s: System, ev: NewEvent, now: nat, generated: nat)
    requires cfg.Valid() && Can(cfg, s, Enqueue(ev, now, generated)) && Conserved(s)
    ensures AttemptsKept(s, ApplyEnqueue(cfg, s, ev, now, generated))
  {
    assert Placed(s, RowKey(cfg, ev, now, generated));
  }

  lemma ReplayKeepsAttempts(s: System, key: Key)
    ensures AttemptsKept(s, ApplyReplay(s, key))
  {
  }

  lemma OtherKeepsAttempts(cfg: Config, s: System, step: Step)
    requires cfg.Valid() && Can(cfg, s, step) && !step.Enqueue? && !step.Replay? && !step.Record?
    ensures AttemptsKept(s, Apply(cfg, s, step))
  {
  }

  lemma AttemptsCarry(cfg: Config, s: System, t: System)
    requires cfg.Valid() && AttemptsKept(s, t) && Budgeted(cfg, s)
    ensures Budgeted(cfg, t)
  {
    if t.log != s.log {
      var h := t.log[|s.log|];
      forall k ensures Charges(t.log, k) == if Renewed(s, t, k) then 0 else Charges(s.log, k) {
        ChargesAppend(s.log, h, k);
      }
    }
  }

  lemma StepBudgeted(cfg: Config, s: System, step: Step)
    requires cfg.Valid() && Can(cfg, s, step) && Budgeted(cfg, s) && Conserved(s)
    ensures Budgeted(cfg, Apply(cfg, s, step))
  {
    if step.Record? {
      RecordBudgeted(cfg, s, step.sid, step.stamp, step.failedAt, step.message);
    } else {
      if step.Enqueue? { EnqueueKeepsAttempts(cfg, s, step.ev, step.now, step.generated); }
      else if step.Replay? { ReplayKeepsAttempts(s, step.key); }
      else { OtherKeepsAttempts(cfg, s, step); }
      AttemptsCarry(cfg, s, Apply(cfg, s, step));
    }
  }

  lemma RecordBudgeted(cfg: Config, s: System, sid: nat, stamp: nat, failedAt: nat, message: string)
    requires cfg.Valid() && InPhase(s, sid) && s.sessions[sid].phase.Recording? && Budgeted(cfg, s) && Conserved(s)
    ensures Budgeted(cfg, ApplyRecord(cfg, s, sid, stamp, failedAt, message))
  {
    var t := ApplyRecord(cfg, s, sid, stamp, failedAt, message);
    var key := Current(s, sid).key;
    if t.log == s.log {
      assert t.tables.dead == s.tables.dead;
    } else {
      assert key in s.tables.pending && t.log[|s.log|] == Charged(key);
      assert Placed(s, key);
      if |t.log| == |s.log| + 1 {
        assert t.log == s.log + [Charged(key)];
      } else {
        assert t.log == s.log + [Charged(key)] + [Parked(key)];
      }
      forall k ensures Charges(t.log, k) == Charges(s.log, k) + if k == key then 1 else 0 {
        ChargesAppend(s.log, Charged(key), k);
        ChargesAppend(s.log + [Charged(key)], Parked(key), k);
      }
      RecordedTables(cfg, s.tables, t.tables, s.log, t.log, key);
    }
  }

  lemma RecordedTables(cfg: Config, s: Tables, t: Tables, before: seq<Happening>, after: seq<Happening>, key: Key)
    requires forall k :: Charges(after, k) == Charges(before, k) + if k == key then 1 else 0
    requires key in s.pending && key !in s.dead && s.pending[key].attempts == Charges(before, key) < cfg.maxAttempts
    requires forall k | k in s.pending :: s.pending[k].attempts == Charges(before, k) < cfg.maxAttempts
    requires forall k | k in s.dead :: 0 < s.dead[k].attempts == Charges(before, k) <= cfg.maxAttempts
    requires forall k | k in t.pending ::
      k in s.pending && if k == key then t.pending[k].attempts == s.pending[k].attempts + 1 < cfg.maxAttempts
                        else t.pending[k] == s.pending[k]
    requires forall k | k in t.dead ::
      if k == key then t.dead[k].attempts == s.pending[k].attempts + 1 else k in s.dead && t.dead[k] == s.dead[k]
    ensures forall k | k in t.pending :: t.pending[k].attempts == Charges(after, k) < cfg.maxAttempts
    ensures forall k | k in t.dead :: 0 < t.dead[k].attempts == Charges(after, k) <= cfg.maxAttempts
  {
  }

  /** An enqueued row that is no longer pending has been delivered or parked. */
  lemma PlacedElsewhere(s: System, e: Key)
    requires Conserved(s) && Accounted(s) && e in s.enqueued && e !in s.tables.pending
    ensures Settled(s, |s.log|, e)
  {
    assert Placed(s, e);
    if e in s.removed {
      assert WasDelivered(s, e);
      var i :| 0 <= i < |s.log| && s.log[i].Delivered? && s.log[i].event.key == e;
      assert Settles(s.log[i], e);
    } else {
      assert WasParked(s, e);
      var i :| 0 <= i < |s.log| && s.log[i].Parked? && s.log[i].key == e;
      assert Settles(s.log[i], e);
    }
  }

  lemma ReadSession(
    cfg: Config, s: System, sid: nat, owner: Owner, bucket: nat, limit: int, stamp: nat, batch: seq<Event>)
    requires cfg.Valid() && Can(cfg, s, Read(sid, owner, bucket, limit, stamp, batch))
    requires Conserved(s) && Accounted(s) && Faithful(cfg, s)
    ensures var t := ApplyRead(s, sid, owner, bucket, batch);
      BatchKept(t, t.sessions[sid]) && NoGaps(t, t.sessions[sid])
  {
    var t := ApplyRead(s, sid, owner, bucket, batch);
    var snapshot := set k | k in s.tables.pending && k.bucket == Column(bucket);
    NewSession(cfg, s, Session(owner, bucket, batch, 0, Checking, snapshot), EffectiveLimit(limit));
    LaterSession(cfg, s, t, t.sessions[sid]);
  }

  lemma NewSession(cfg: Config, s: System, x: Session, limit: nat)
    requires Conserved(s) && Accounted(s) && Faithful(cfg, s)
    requires x.published == 0 && x.phase.Checking?
    requires x.batch == [] || IsOldest(s.tables, Column(x.bucket), limit, x.batch)
    requires x.pendingAtRead == set k | k in s.tables.pending && k.bucket == Column(x.bucket)
    ensures BatchKept(s, x) && NoGaps(s, x)
  {
    forall i, e | 0 <= i < |x.batch| && e in x.pendingAtRead && Less(e, x.batch[i].key)
      ensures exists i' | 0 <= i' < i :: x.batch[i'].key == e
    {
      InBatchBefore(s.tables, Column(x.bucket), limit, x.batch, i, e);
    }
    forall i, e | 0 <= i < |x.batch| && Precedes(s, e, x.batch[i].key)
      ensures e in x.pendingAtRead || Settled(s, |s.log|, e)
    {
      if e !in s.tables.pending { PlacedElsewhere(s, e); }
    }
  }

  /** A batch misses no pending row smaller than one it has. */
  lemma InBatchBefore(t: Tables, column: nat, limit: nat, batch: seq<Event>, i: nat, e: Key)
    requires IsOldest(t, column, limit, batch) && i < |batch|
    requires e in t.pending && e.bucket == column && Less(e, batch[i].key)
    ensures exists i' | 0 <= i' < i :: batch[i'].key == e
  {
    var i' :| 0 <= i' < |batch| && batch[i'].key == e;
    assert i' < i;
  }

  /** A session survives a step of its own unchanged but for its phase and its count. */
  lemma SessionMoves(t: System, x: Session, y: Session)
    requires BatchKept(t, x) && NoGaps(t, x)
    requires y.batch == x.batch && y.bucket == x.bucket && y.pendingAtRead == x.pendingAtRead
    requires y.published == x.published
      || (y.published == x.published + 1 && x.published < |x.batch| && WasDelivered(t, x.batch[x.published].key))
    requires !y.phase.Checking? ==> y.published < |y.batch|
    requires y.phase.Deleting? ==> WasDelivered(t, y.batch[y.published].key)
    ensures BatchKept(t, y) && NoGaps(t, y)
  {
  }

  /** Sessions come from reads and change only by steps of their own. */
  lemma SessionComes(cfg: Config, s: System, step: Step, sid: nat)
    requires cfg.Valid() && Can(cfg, s, step) && sid in Apply(cfg, s, step).sessions
    ensures sid !in s.sessions ==> step.Read? && step.sid == sid
    ensures sid in s.sessions && Apply(cfg, s, step).sessions[sid] != s.sessions[sid] ==>
      (step.Check? || step.Broker? || step.Delete?) && step.sid == sid
  {
  }

  ghost predicate Kept(s: System, x: Session) { BatchKept(s, x) && NoGaps(s, x) }

  lemma StepSession(cfg: Config, s: System, step: Step, sid: nat)
    requires cfg.Valid() && Can(cfg, s, step) && Conserved(s) && Accounted(s) && Faithful(cfg, s)
    requires SessionsKept(s) && CurrentIsGood(s, step) && sid in Apply(cfg, s, step).sessions
    ensures Kept(Apply(cfg, s, step), Apply(cfg, s, step).sessions[sid])
  {
    SessionComes(cfg, s, step, sid);
    if sid !in s.sessions {
      ReadSession(cfg, s, sid, step.owner, step.bucket, step.limit, step.stamp, step.batch);
    } else {
      KeptSession(cfg, s, step, sid);
      if Apply(cfg, s, step).sessions[sid] != s.sessions[sid] { OwnStep(cfg, s, step, sid); }
    }
  }

  lemma KeptSession(cfg: Config, s: System, step: Step, sid: nat)
    requires cfg.Valid() && Can(cfg, s, step) && Faithful(cfg, s) && SessionsKept(s) && sid in s.sessions
    ensures Kept(Apply(cfg, s, step), s.sessions[sid])
  {
    assert SessionKept(s, sid);
    StepLater(cfg, s, step);
    LaterSession(cfg, s, Apply(cfg, s, step), s.sessions[sid]);
  }

  lemma StepSessions(cfg: Config, s: System, step: Step)
    requires cfg.Valid() && Can(cfg, s, step) && Conserved(s) && Accounted(s) && Faithful(cfg, s)
    requires SessionsKept(s) && CurrentIsGood(s, step)
    ensures SessionsKept(Apply(cfg, s, step))
  {
    var t := Apply(cfg, s, step);
    forall sid | sid in t.sessions ensures SessionKept(t, sid) {
      StepSession(cfg, s, step, sid);
    }
  }

  lemma OwnStep(cfg: Config, s: System, step: Step, sid: nat)
    requires cfg.Valid() && Can(cfg, s, step) && CurrentIsGood(s, step)
    requires (step.Check? || step.Broker? || step.Delete?) && step.sid == sid
    requires sid in s.sessions && sid in Apply(cfg, s, step).sessions && Kept(Apply(cfg, s, step), s.sessions[sid])
    ensures Kept(Apply(cfg, s, step), Apply(cfg, s, step).sessions[sid])
  {
    var t := Apply(cfg, s, step);
    var x := s.sessions[sid];
    if step.Broker? && step.failure.None? {
      assert t.log[|s.log|] == Delivered(x.batch[x.published]);
      assert WasDelivered(t, x.batch[x.published].key);
    }
    if step.Delete? {
      StepLater(cfg, s, step);
      LaterDelivered(s, t, x.batch[x.published].key);
    }
    SessionMoves(t, x, t.sessions[sid]);
  }

  lemma StepKeeps(cfg: Config, s: System, step: Step)
    requires cfg.Valid() && Inv(cfg, s) && Can(cfg, s, step)
    ensures Inv(cfg, Apply(cfg, s, step))
  {
    CurrentFacts(cfg, s, step);
    StepLater(cfg, s, step);
    StepNews(cfg, s, step);
    StepConserved(cfg, s, step);
    StepAccounted(cfg, s, step);
    StepTablesFaithful(cfg, s, step);
    FaithfulLater(cfg, s, Apply(cfg, s, step));
    StepBudgeted(cfg, s, step);
    LaterOrdered(cfg, s, Apply(cfg, s, step));
    StepSessions(cfg, s, step);
  }

  lemma {:induction false} RunKeeps(cfg: Config, s: System, steps: seq<Step>, t: System)
    requires cfg.Valid() && Inv(cfg, s) && Runs(cfg, s, steps, t)
    ensures Inv(cfg, t)
    decreases |steps|
  {
    if steps != [] {
      StepKeeps(cfg, s, steps[0]);
      RunKeeps(cfg, Apply(cfg, s, steps[0]), steps[1..], t);
    }
  }
}
