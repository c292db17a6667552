/** Any number of relay instances, writers and operators over one set of outbox tables.
    A session is one PublishBucket call; its steps interleave freely with every other step, and it
    may vanish between any two of them. No two clocks need agree: each step brings its own reading. */
module OutboxProtocol {
  import opened Basics
  import opened PublishErrors
  import opened OutboxTables

  datatype Phase = Checking | Publishing | Deleting | Recording(error: Error)

  /** `pendingAtRead` observes which rows of the bucket were pending when the batch was read. */
  datatype Session = Session(
    owner: Owner, bucket: nat, batch: seq<Event>, published: nat, phase: Phase, pendingAtRead: set<Key>)

  /** What an observer of the tables and of the broker sees, in order. */
  datatype Happening =
    | Entered(key: Key)
    | Delivered(event: Event)
    | Charged(key: Key)
    | Parked(key: Key)
    | Requeued(key: Key)

  /** The content a row was committed with and when, counted in happenings. */
  datatype Ticket = Ticket(content: Content, commit: nat)

  /** `sent` holds every message a publish call has put on the wire: the broker may accept one long
      after the call failed or its process died, and more than once. */
  datatype System = System(
    tables: Tables,
    sessions: map<nat, Session>,
    sent: set<Event>,
    log: seq<Happening>,
    enqueued: map<Key, Ticket>,
    removed: set<Key>,
    expired: set<Key>)

  datatype Step =
    | Enqueue(ev: NewEvent, now: nat, generated: nat)
    | Claim(owner: Owner, ttl: nat, stamp: nat)
    | Read(sid: nat, owner: Owner, bucket: nat, limit: int, stamp: nat, batch: seq<Event>)
    | Check(sid: nat, stamp: nat)
    | Broker(sid: nat, failure: Option<Error>)
    | Accept(event: Event)
    | Delete(sid: nat, stamp: nat, acked: bool)
    | Record(sid: nat, stamp: nat, failedAt: nat, message: string, acked: bool)
    | Leave(sid: nat)
    | Replay(key: Key)
    | Expire(key: Key)

  predicate InPhase(s: System, sid: nat) {
    sid in s.sessions && s.sessions[sid].published < |s.sessions[sid].batch|
  }

  /** When a step may happen. Enqueueing assumes what the primary key is for: a key is used once. */
  predicate Can(cfg: Config, s: System, step: Step)
    requires cfg.Valid()
  {
    match step
    case Enqueue(ev, now, generated) => RowKey(cfg, ev, now, generated) !in s.enqueued
    case Claim(_, _, _) => true
    case Read(sid, owner, bucket, limit, stamp, batch) =>
      sid !in s.sessions && IsBatch(s.tables, bucket, owner, EffectiveLimit(limit), stamp, batch)
    case Check(sid, _) => InPhase(s, sid) && s.sessions[sid].phase.Checking?
    case Broker(sid, _) => InPhase(s, sid) && s.sessions[sid].phase.Publishing?
    case Accept(event) => event in s.sent
    case Delete(sid, _, _) => InPhase(s, sid) && s.sessions[sid].phase.Deleting?
    case Record(sid, _, _, _, _) => InPhase(s, sid) && s.sessions[sid].phase.Recording?
    case Leave(sid) => sid in s.sessions
    case Replay(_) => true
    case Expire(key) => key in s.tables.dead
  }

  function Gone(s: System, sid: nat): System { s.(sessions := s.sessions - {sid}) }

  function With(s: System, sid: nat, x: Session): System { s.(sessions := s.sessions[sid := x]) }

  function Current(s: System, sid: nat): Event
    requires InPhase(s, sid)
  {
    s.sessions[sid].batch[s.sessions[sid].published]
  }

  function ApplyEnqueue(cfg: Config, s: System, ev: NewEvent, now: nat, generated: nat): System
    requires cfg.Valid()
  {
    var key := RowKey(cfg, ev, now, generated);
    match EnqueueTx(cfg, s.tables, ev, now, generated)
    case Err(_) => s
    case Ok(t) => s.(tables := t, log := s.log + [Entered(key)],
                     enqueued := s.enqueued[key := Ticket(RowContent(ev), |s.log|)])
  }

  function ApplyRead(s: System, sid: nat, owner: Owner, bucket: nat, batch: seq<Event>): System {
    var snapshot := set k | k in s.tables.pending && k.bucket == Column(bucket);
    With(s, sid, Session(owner, bucket, batch, 0, Checking, snapshot))
  }

  function ApplyCheck(s: System, sid: nat, stamp: nat): System
    requires InPhase(s, sid)
  {
    var x := s.sessions[sid];
    if Held(s.tables, Current(s, sid).key.bucket, x.owner, stamp)
    then With(s, sid, x.(phase := Publishing)).(sent := s.sent + {Current(s, sid)})
    else Gone(s, sid)
  }

  function ApplyBroker(s: System, sid: nat, failure: Option<Error>): System
    requires InPhase(s, sid)
  {
    var x := s.sessions[sid];
    match failure
    case None => With(s, sid, x.(phase := Deleting)).(log := s.log + [Delivered(Current(s, sid))])
    case Some(e) => With(s, sid, x.(phase := Recording(e)))
  }

  function ApplyDelete(s: System, sid: nat, stamp: nat, acked: bool): System
    requires InPhase(s, sid)
  {
    var x := s.sessions[sid];
    var key := Current(s, sid).key;
    match DeleteTx(s.tables, key, x.owner, stamp)
    case None => Gone(s, sid)
    case Some(t) =>
      var s1 := s.(tables := t, removed := if key in s.tables.pending then s.removed + {key} else s.removed);
      if acked then With(s1, sid, x.(published := x.published + 1, phase := Checking)) else Gone(s1, sid)
  }

  function ApplyRecord(cfg: Config, s: System, sid: nat, stamp: nat, failedAt: nat, message: string): System
    requires InPhase(s, sid) && s.sessions[sid].phase.Recording?
  {
    var x := s.sessions[sid];
    var key := Current(s, sid).key;
    var kind := Classify(x.phase.error);
    match RecordTx(cfg, s.tables, key, x.owner, kind, message, stamp, failedAt)
    case LeaseLost => Gone(s, sid)
    case Done(t, deadLettered) =>
      var charged := if key in s.tables.pending && kind != TransientClass then [Charged(key)] else [];
      var parked := if deadLettered then [Parked(key)] else [];
      Gone(s, sid).(tables := t, log := s.log + (charged + parked))
  }

  function ApplyReplay(s: System, key: Key): System {
    match ReplayTx(s.tables, key)
    case Err(_) => s
    case Ok((t, AlreadyPending)) => s
    case Ok((t, Requeued)) => s.(tables := t, log := s.log + [Happening.Requeued(key)])
  }

  function Apply(cfg: Config, s: System, step: Step): System
    requires cfg.Valid() && Can(cfg, s, step)
  {
    match step
    case Enqueue(ev, now, generated) => ApplyEnqueue(cfg, s, ev, now, generated)
    case Claim(owner, ttl, stamp) => s.(tables := ClaimTx(cfg, s.tables, owner, ttl, stamp))
    case Read(sid, owner, bucket, _, _, batch) => ApplyRead(s, sid, owner, bucket, batch)
    case Check(sid, stamp) => ApplyCheck(s, sid, stamp)
    case Broker(sid, failure) => ApplyBroker(s, sid, failure)
    case Accept(event) => s.(log := s.log + [Delivered(event)])
    case Delete(sid, stamp, acked) => ApplyDelete(s, sid, stamp, acked)
    case Record(sid, stamp, failedAt, message, _) => ApplyRecord(cfg, s, sid, stamp, failedAt, message)
    case Leave(sid) => Gone(s, sid)
    case Replay(key) => ApplyReplay(s, key)
    case Expire(key) => s.(tables := ExpireTx(s.tables, key), expired := s.expired + {key})
  }

  /** `steps` lead from `s` to `t`. */
  ghost predicate Runs(cfg: Config, s: System, steps: seq<Step>, t: System)
    requires cfg.Valid()
    decreases |steps|
  {
    if steps == [] then s == t
    else Can(cfg, s, steps[0]) && Runs(cfg, Apply(cfg, s, steps[0]), steps[1..], t)
  }

  predicate Initial(s: System) {
    && s.tables.pending == map[] && s.tables.dead == map[]
    && s.sessions == map[] && s.sent == {} && s.log == []
    && s.enqueued == map[] && s.removed == {} && s.expired == {}
  }

  // ---- conservation ----

  /** How many of the four places hold the row: pending, dead, removed after delivery, expired. */
  function Places(s: System, key: Key): nat {
    (if key in s.tables.pending then 1 else 0) + (if key in s.tables.dead then 1 else 0)
    + (if key in s.removed then 1 else 0) + (if key in s.expired then 1 else 0)
  }

  /** Every enqueued row is in exactly one place, and no place holds anything else. */
  ghost predicate Conserved(s: System) {
    forall k :: Placed(s, k)
  }

  predicate Placed(s: System, key: Key) { Places(s, key) == if key in s.enqueued then 1 else 0 }

  predicate WasDelivered(s: System, key: Key) {
    exists i | 0 <= i < |s.log| :: s.log[i].Delivered? && s.log[i].event.key == key
  }

  predicate WasParked(s: System, key: Key) {
    exists i | 0 <= i < |s.log| :: s.log[i].Parked? && s.log[i].key == key
  }

  /** Nothing leaves the queue silently: a removed row reached the broker, a dead or expired one was parked. */
  ghost predicate Accounted(s: System) {
    && (forall k | k in s.removed :: WasDelivered(s, k))
    && (forall k | k in s.tables.dead || k in s.expired :: WasParked(s, k))
  }

  ghost predicate Genuine(s: System, e: Event) {
    e.key in s.enqueued && e.content == s.enqueued[e.key].content
  }

  ghost predicate TablesFaithful(cfg: Config, s: System) {
    && (forall k | k in s.enqueued :: s.enqueued[k].commit < |s.log|)
    && (forall k | k in s.enqueued :: k.bucket == Column(BucketOf(s.enqueued[k].content.partitionKey, cfg.bucketCount)))
    && (forall k | k in s.tables.pending :: k in s.enqueued && s.tables.pending[k].content == s.enqueued[k].content)
    && (forall k | k in s.tables.dead :: k in s.enqueued && s.tables.dead[k].content == s.enqueued[k].content)
  }

  /** Happening `h` at position `n` of the history concerns a row that was committed before. */
  predicate Timely(s: System, h: Happening, n: nat) {
    match h
    case Delivered(e) => e.key in s.enqueued && s.enqueued[e.key].commit < n
    case Parked(k) => k in s.enqueued && s.enqueued[k].commit < n
    case _ => true
  }

  /** Every copy of a row, in a table, in a batch, on the wire or at the broker, is what was enqueued. */
  ghost predicate Faithful(cfg: Config, s: System) {
    && TablesFaithful(cfg, s)
    && (forall e | e in s.sent :: Genuine(s, e))
    && (forall i | 0 <= i < |s.log| && s.log[i].Delivered? :: Genuine(s, s.log[i].event))
    && (forall i | 0 <= i < |s.log| :: Timely(s, s.log[i], i))
  }

  // ---- the attempt budget ----

  /** Non-transient failures charged to a row since it last entered the pending table. */
  function Charges(log: seq<Happening>, key: Key): nat {
    if log == [] then 0
    else
      var h := log[|log| - 1];
      if (h.Entered? || h.Requeued?) && h.key == key then 0
      else Charges(log[..|log| - 1], key) + if h.Charged? && h.key == key then 1 else 0
  }

  ghost predicate Budgeted(cfg: Config, s: System) {
    && (forall k | k in s.tables.pending :: s.tables.pending[k].attempts == Charges(s.log, k) < cfg.maxAttempts)
    && (forall k | k in s.tables.dead :: 0 < s.tables.dead[k].attempts == Charges(s.log, k) <= cfg.maxAttempts)
  }

  // ---- order ----

  /** `e` is an earlier row of the same bucket: smaller key and committed first. */
  predicate Precedes(s: System, e: Key, f: Key) {
    && e in s.enqueued && f in s.enqueued
    && e.bucket == f.bucket && Less(e, f) && s.enqueued[e].commit < s.enqueued[f].commit
  }

  predicate Settles(h: Happening, key: Key) {
    (h.Delivered? && h.event.key == key) || (h.Parked? && h.key == key)
  }

  /** Among the first `n` happenings, `key` was delivered or parked. */
  predicate Settled(s: System, n: nat, key: Key)
    requires n <= |s.log|
  {
    exists i | 0 <= i < n :: Settles(s.log[i], key)
  }

  /** Everything that precedes `key` has been delivered or parked. */
  ghost predicate Cleared(s: System, key: Key) {
    forall e | Precedes(s, e, key) :: Settled(s, |s.log|, e)
  }

  ghost predicate Ordered(s: System) {
    && (forall e | e in s.sent :: Cleared(s, e.key))
    && (forall j, e | 0 <= j < |s.log| && s.log[j].Delivered? && Precedes(s, e, s.log[j].event.key) :: Settled(s, j, e))
  }

  // ---- sessions ----

  ghost predicate BatchKept(s: System, x: Session) {
    && x.published <= |x.batch|
    && (!x.phase.Checking? ==> x.published < |x.batch|)
    && (forall i, j :: 0 <= i < j < |x.batch| ==> Less(x.batch[i].key, x.batch[j].key))
    && (forall i | 0 <= i < |x.batch| :: x.batch[i].key.bucket == Column(x.bucket) && Genuine(s, x.batch[i]))
    && (forall i | 0 <= i < x.published :: WasDelivered(s, x.batch[i].key))
    && (x.phase.Deleting? ==> WasDelivered(s, x.batch[x.published].key))
  }

  /** The batch has no gaps: what precedes one of its rows is in the batch before it, or was settled. */
  ghost predicate NoGaps(s: System, x: Session) {
    && x.pendingAtRead <= s.enqueued.Keys
    && (forall i, e | 0 <= i < |x.batch| && e in x.pendingAtRead && Less(e, x.batch[i].key) ::
          exists i' | 0 <= i' < i :: x.batch[i'].key == e)
    && (forall i, e | 0 <= i < |x.batch| && Precedes(s, e, x.batch[i].key) ::
          e in x.pendingAtRead || Settled(s, |s.log|, e))
  }

  ghost predicate SessionKept(s: System, sid: nat)
    requires sid in s.sessions
  {
    BatchKept(s, s.sessions[sid]) && NoGaps(s, s.sessions[sid])
  }

  ghost predicate SessionsKept(s: System) {
    forall sid | sid in s.sessions :: SessionKept(s, sid)
  }

  ghost predicate Inv(cfg: Config, s: System) {
    Conserved(s) && Accounted(s) && Faithful(cfg, s) && Budgeted(cfg, s) && Ordered(s) && SessionsKept(s)
  }

  // ---- what a longer history keeps ----

  /** `t` is later than `s`: the history and the record of enqueued rows only grow. */
  ghost predicate Later(s: System, t: System) {
    && |s.log| <= |t.log| && (forall i | 0 <= i < |s.log| :: t.log[i] == s.log[i])
    && (forall k | k in s.enqueued :: k in t.enqueued && t.enqueued[k] == s.enqueued[k])
    && (forall k | k in t.enqueued && k !in s.enqueued :: |s.log| <= t.enqueued[k].commit)
  }

  lemma LaterDelivered(s: System, t: System, key: Key)
    requires Later(s, t) && WasDelivered(s, key)
    ensures WasDelivered(t, key)
  {
    var i :| 0 <= i < |s.log| && s.log[i].Delivered? && s.log[i].event.key == key;
    assert t.log[i] == s.log[i];
  }

  lemma LaterParked(s: System, t: System, key: Key)
    requires Later(s, t) && WasParked(s, key)
    ensures WasParked(t, key)
  {
    var i :| 0 <= i < |s.log| && s.log[i].Parked? && s.log[i].key == key;
    assert t.log[i] == s.log[i];
  }

  lemma LaterSettled(s: System, t: System, n: nat, m: nat, key: Key)
    requires Later(s, t) && n <= |s.log| && n <= m <= |t.log| && Settled(s, n, key)
    ensures Settled(t, m, key)
  {
    var i :| 0 <= i < n && Settles(s.log[i], key);
    assert t.log[i] == s.log[i];
  }

  /** A row enqueued later precedes nothing that was already enqueued. */
  lemma LaterPrecedes(s: System, t: System, e: Key, f: Key)
    requires Later(s, t) && f in s.enqueued && s.enqueued[f].commit < |s.log|
    ensures Precedes(t, e, f) <==> Precedes(s, e, f)
  {
  }

  lemma LaterCleared(s: System, t: System, key: Key)
    requires Later(s, t) && key in s.enqueued && s.enqueued[key].commit < |s.log| && Cleared(s, key)
    ensures Cleared(t, key)
  {
    forall e | Precedes(t, e, key) ensures Settled(t, |t.log|, e) {
      LaterPrecedes(s, t, e, key);
      LaterSettled(s, t, |s.log|, |t.log|, e);
    }
  }

  lemma LaterSession(cfg: Config, s: System, t: System, x: Session)
    requires Later(s, t) && Faithful(cfg, s) && BatchKept(s, x) && NoGaps(s, x)
    ensures BatchKept(t, x) && NoGaps(t, x)
  {
    forall i | 0 <= i < x.published ensures WasDelivered(t, x.batch[i].key) {
      LaterDelivered(s, t, x.batch[i].key);
    }
    if x.phase.Deleting? { LaterDelivered(s, t, x.batch[x.published].key); }
    forall i, e | 0 <= i < |x.batch| && Precedes(t, e, x.batch[i].key)
      ensures e in x.pendingAtRead || Settled(t, |t.log|, e)
    {
      assert Genuine(s, x.batch[i]);
      LaterPrecedes(s, t, e, x.batch[i].key);
      if e !in x.pendingAtRead { LaterSettled(s, t, |s.log|, |t.log|, e); }
    }
  }

  /** What a step adds to the wire or to the broker was enqueued so, and everything before it is settled; what it parks
      was pending. */
  ghost predicate NewsIsGood(s: System, t: System) {
    && (forall e | e in t.sent && e !in s.sent :: Genuine(s, e) && Cleared(s, e.key))
    && (forall j | |s.log| <= j < |t.log| && t.log[j].Delivered? ::
          Genuine(s, t.log[j].event) && Cleared(s, t.log[j].event.key))
    && (forall j | |s.log| <= j < |t.log| && t.log[j].Parked? :: t.log[j].key in s.tables.pending)
  }

  /** What a step has to show about order: the deliveries it adds were cleared beforehand. */
  lemma LaterOrdered(cfg: Config, s: System, t: System)
    requires Later(s, t) && Faithful(cfg, s) && Ordered(s)
    requires NewsIsGood(s, t)
    ensures Ordered(t)
  {
    forall e | e in t.sent ensures Cleared(t, e.key) {
      assert Genuine(s, e);
      LaterCleared(s, t, e.key);
    }
    forall j, e | 0 <= j < |t.log| && t.log[j].Delivered? && Precedes(t, e, t.log[j].event.key)
      ensures Settled(t, j, e)
    {
      if j < |s.log| {
        assert t.log[j] == s.log[j];
        assert Genuine(s, s.log[j].event);
        LaterPrecedes(s, t, e, s.log[j].event.key);
        LaterSettled(s, t, j, j, e);
      } else {
        LaterPrecedes(s, t, e, t.log[j].event.key);
        LaterSettled(s, t, |s.log|, j, e);
      }
    }
  }

  lemma {:induction false} ChargesAppend(log: seq<Happening>, h: Happening, key: Key)
    ensures Charges(log + [h], key) ==
      if (h.Entered? || h.Requeued?) && h.key == key then 0
      else Charges(log, key) + if h.Charged? && h.key == key then 1 else 0
  {
    assert (log + [h])[..|log|] == log;
  }

  /** The next row of a session may be sent: everything that precedes it is settled. */
  lemma NextIsCleared(s: System, x: Session)
    requires BatchKept(s, x) && NoGaps(s, x) && x.published < |x.batch|
    ensures Cleared(s, x.batch[x.published].key)
  {
    var f := x.batch[x.published].key;
    forall e | Precedes(s, e, f) ensures Settled(s, |s.log|, e) {
      if e in x.pendingAtRead {
        var i :| 0 <= i < x.published && x.batch[i].key == e;
        assert WasDelivered(s, x.batch[i].key);
        var n :| 0 <= n < |s.log| && s.log[n].Delivered? && s.log[n].event.key == e;
        assert Settles(s.log[n], e);
      }
    }
  }
}
