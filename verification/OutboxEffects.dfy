/** What each step does to the tables in a reachable state, told by the rows, the leases and the history alone. */
module OutboxEffects {
  import opened Basics
  import opened OutboxProtocol
  import opened OutboxSafety
  import opened OutboxTables
  import opened OutboxTheorems
  import opened TableEffects
  import Stores = OutboxStores

  // ---- recording a failure ----

  lemma SessionRow(cfg: Config, s: System, sid: nat)
    requires cfg.Valid() && Reachable(cfg, s) && InPhase(s, sid)
    ensures Current(s, sid).key.bucket < 256 && Genuine(s, Current(s, sid))
  {
    ReachableInv(cfg, s);
    assert SessionKept(s, sid);
  }

  lemma RowFacts(cfg: Config, s: System, key: Key)
    requires cfg.Valid() && Reachable(cfg, s) && key in s.tables.pending
    ensures key !in s.tables.dead && key in s.enqueued && s.tables.pending[key].content == s.enqueued[key].content
    ensures s.tables.pending[key].attempts == Charges(s.log, key)
  {
    NothingIsLost(cfg, s, key);
    BudgetIsKept(cfg, s, key);
  }

  /** A publish that failed: under a running lease a pending row is parked exactly when the failure is permanent, or is
      not transient and is the last one the row's budget has; otherwise it stays pending with the content it was
      enqueued with. Without the lease, or without the row, no table changes. Either way the session is over. */
  lemma FailureIsRecorded(cfg: Config, s: System, step: Step)
    requires cfg.Valid() && Reachable(cfg, s) && Can(cfg, s, step) && step.Record?
    ensures var x, key, t := s.sessions[step.sid], Current(s, step.sid).key, Apply(cfg, s, step);
      && step.sid !in t.sessions
      && if LeaseRuns(s.tables, key.bucket, x.owner, step.stamp) && key in s.tables.pending
         then key in s.enqueued
           && RowRecorded(s.tables, t.tables, key, s.enqueued[key].content, Charges(s.log, key), cfg.maxAttempts,
                          x.phase.error, step.message, step.failedAt)
         else t.tables == s.tables
  {
    var x, key := s.sessions[step.sid], Current(s, step.sid).key;
    SessionRow(cfg, s, step.sid);
    if key in s.tables.pending {
      RowFacts(cfg, s, key);
      RecordEffect(cfg, s.tables, key, x.owner, x.phase.error, step.message, step.stamp, step.failedAt);
    }
  }

  /** What the call then returns: the publish error, marked exactly when the row was parked just now. */
  lemma FailureIsReported(cfg: Config, s: System, step: Step)
    requires cfg.Valid() && Reachable(cfg, s) && Can(cfg, s, step) && step.Record?
    ensures var x, key := s.sessions[step.sid], Current(s, step.sid).key;
      var parked := key in s.tables.pending && LastFailure(x.phase.error, Charges(s.log, key), cfg.maxAttempts);
      Stores.Reported(cfg, s, step)
      == Some(if !LeaseRuns(s.tables, key.bucket, x.owner, step.stamp) then Stores.LOST_LEASE
              else if step.acked then Stores.PublishFailure(x.phase.error, parked)
              else Stores.DATABASE_ERROR)
  {
    var x, key := s.sessions[step.sid], Current(s, step.sid).key;
    SessionRow(cfg, s, step.sid);
    if key in s.tables.pending {
      RowFacts(cfg, s, key);
      RecordEffect(cfg, s.tables, key, x.owner, x.phase.error, step.message, step.stamp, step.failedAt);
    }
  }

  // ---- deleting, and asking for the lease ----

  /** A row delivered is deleted exactly under a running lease; the call goes on exactly when it is told so. */
  lemma DeliveryIsDeleted(cfg: Config, s: System, step: Step)
    requires cfg.Valid() && Reachable(cfg, s) && Can(cfg, s, step) && step.Delete?
    ensures var x, key, t := s.sessions[step.sid], Current(s, step.sid).key, Apply(cfg, s, step);
      && (if LeaseRuns(s.tables, key.bucket, x.owner, step.stamp)
          then OnlyRow(s.tables, t.tables, key) && key !in t.tables.pending && t.tables.dead == s.tables.dead
          else t.tables == s.tables)
      && (if LeaseRuns(s.tables, key.bucket, x.owner, step.stamp) && step.acked
          then step.sid in t.sessions && t.sessions[step.sid] == x.(published := x.published + 1, phase := Checking)
          else step.sid !in t.sessions)
  {
    SessionRow(cfg, s, step.sid);
  }

  /** A row goes to the broker exactly under a running lease, as it was enqueued. */
  lemma PublishNeedsLease(cfg: Config, s: System, step: Step)
    requires cfg.Valid() && Reachable(cfg, s) && Can(cfg, s, step) && step.Check?
    ensures var x, event, t := s.sessions[step.sid], Current(s, step.sid), Apply(cfg, s, step);
      if LeaseRuns(s.tables, event.key.bucket, x.owner, step.stamp)
      then t.sent == s.sent + {event} && step.sid in t.sessions && t.sessions[step.sid] == x.(phase := Publishing)
      else t.sent == s.sent && step.sid !in t.sessions
  {
    SessionRow(cfg, s, step.sid);
  }

  /** A batch is read only under a running lease, and then it leaves a row of the bucket out only where it is full of
      smaller ones. */
  lemma ReadNeedsLease(cfg: Config, s: System, step: Step, key: Key)
    requires cfg.Valid() && Can(cfg, s, step) && step.Read?
    ensures !LeaseRuns(s.tables, step.bucket % 256, step.owner, step.stamp) ==> step.batch == []
    ensures LeaseRuns(s.tables, step.bucket % 256, step.owner, step.stamp)
              && key in s.tables.pending && key.bucket == step.bucket % 256 ==>
      || (exists i | 0 <= i < |step.batch| :: step.batch[i] == Event(key, s.tables.pending[key].content))
      || (|step.batch| == (if step.limit <= 0 then 100 else step.limit)
          && forall i | 0 <= i < |step.batch| :: Less(step.batch[i].key, key))
  {
    if LeaseRuns(s.tables, step.bucket % 256, step.owner, step.stamp)
       && key in s.tables.pending && key.bucket == step.bucket % 256
       && exists i | 0 <= i < |step.batch| :: step.batch[i].key == key {
      var i :| 0 <= i < |step.batch| && step.batch[i].key == key;
      assert step.batch[i] == Event(key, s.tables.pending[key].content);
    }
  }

  /** What the broker took is on record as delivered, at once or long after it was sent; a publish that failed is not,
      and its session is left to record the failure. No table changes. */
  lemma BrokerIsLogged(cfg: Config, s: System, step: Step)
    requires cfg.Valid() && Can(cfg, s, step) && (step.Broker? || step.Accept?)
    ensures var t := Apply(cfg, s, step);
      && t.tables == s.tables
      && match step
         case Accept(event) => t.log == s.log + [Delivered(event)] && t.sessions == s.sessions && event in s.sent
         case Broker(sid, failure) =>
           && t.log == (if failure == None then s.log + [Delivered(Current(s, sid))] else s.log)
           && sid in t.sessions
           && t.sessions[sid].phase == if failure == None then Deleting else Phase.Recording(failure.value)
  {
  }

  // ---- replaying ----

  lemma RequeuedHasNoCharges(log: seq<Happening>, key: Key)
    ensures Charges(log + [Happening.Requeued(key)], key) == 0
  {
    ChargesAppend(log, Happening.Requeued(key), key);
  }

  /** A dead letter that is replayed is pending again with what it was enqueued with and a whole budget. A row that is
      pending already, and one that is unknown, are told apart and left as they are. */
  lemma ReplayRestores(cfg: Config, s: System, key: Key)
    requires cfg.Valid() && Reachable(cfg, s)
    ensures var t, r := ApplyReplay(s, key), ReplayTx(s.tables, key);
      if key in s.tables.dead then
        && key in s.enqueued && OnlyRow(s.tables, t.tables, key)
        && key !in t.tables.dead && key in t.tables.pending
        && t.tables.pending[key] == Row(s.enqueued[key].content, 0, None) && Charges(t.log, key) == 0
        && r == Ok((t.tables, ReplayState.Requeued))
      else
        t == s && r == if key in s.tables.pending then Ok((s.tables, AlreadyPending)) else Err(NotFound)
  {
    NothingIsLost(cfg, s, key);
    if key in s.tables.dead { DeadFacts(cfg, s, key); }
    ReplayEffect(s.tables, key);
    RequeuedHasNoCharges(s.log, key);
  }

  lemma DeadFacts(cfg: Config, s: System, key: Key)
    requires cfg.Valid() && Reachable(cfg, s) && key in s.tables.dead
    ensures key in s.enqueued && s.tables.dead[key].content == s.enqueued[key].content && key !in s.tables.pending
  {
    ReachableInv(cfg, s);
    assert Placed(s, key);
  }

  // ---- enqueueing ----

  predicate EnqueuedBy(cfg: Config, step: Step, key: Key, content: Content) {
    step.Enqueue? && AsGiven(cfg, step.ev, step.now, step.generated, key, content)
  }

  lemma {:induction false} EnqueuedOnRun(cfg: Config, s: System, steps: seq<Step>, t: System, key: Key)
    requires cfg.Valid() && Runs(cfg, s, steps, t) && key in t.enqueued && key !in s.enqueued
    ensures exists n | 0 <= n < |steps| :: EnqueuedBy(cfg, steps[n], key, t.enqueued[key].content)
    decreases |steps|
  {
    var next := Apply(cfg, s, steps[0]);
    if key in next.enqueued {
      EnqueuedMoves(cfg, s, steps[0], key);
      RunLater(cfg, next, steps[1..], t);
      EnqueueGives(cfg, s.tables, steps[0].ev, steps[0].now, steps[0].generated);
      assert EnqueuedBy(cfg, steps[0], key, t.enqueued[key].content);
    } else {
      EnqueuedOnRun(cfg, next, steps[1..], t, key);
      var n :| 0 <= n < |steps[1..]| && EnqueuedBy(cfg, steps[1..][n], key, t.enqueued[key].content);
      assert EnqueuedBy(cfg, steps[n + 1], key, t.enqueued[key].content);
    }
  }

  /** Whatever the broker receives, and whatever is pending or dead, on any run from empty tables, carries the partition
      key, topic and payload that some call enqueued, in the bucket of its partition key. */
  lemma DeliveredAsGiven(cfg: Config, s: System, steps: seq<Step>, t: System, key: Key, content: Content)
    requires cfg.Valid() && Initial(s) && Runs(cfg, s, steps, t)
    requires || (exists i | 0 <= i < |t.log| :: t.log[i] == Delivered(Event(key, content)))
             || (key in t.tables.pending && t.tables.pending[key].content == content)
             || (key in t.tables.dead && t.tables.dead[key].content == content)
    ensures exists n | 0 <= n < |steps| :: EnqueuedBy(cfg, steps[n], key, content)
  {
    RunKeeps(cfg, s, steps, t);
    if i :| 0 <= i < |t.log| && t.log[i] == Delivered(Event(key, content)) {
      assert Genuine(t, t.log[i].event);
    }
    EnqueuedOnRun(cfg, s, steps, t, key);
  }
}
