/** ydb/outbox.go: what each transaction does to the pending, lease and dead-letter tables.
    Every function here is one serializable transaction; the clock it reads is an argument. */
module OutboxTables {
  import opened Basics
  import opened PublishErrors

  type Owner = string

  /** The primary key of both event tables, in nanoseconds and with the UUID as a number. */
  datatype Key = Key(bucket: nat, createdAt: nat, id: nat)

  predicate Less(a: Key, b: Key) {
    a.bucket < b.bucket || (a.bucket == b.bucket
      && (a.createdAt < b.createdAt || (a.createdAt == b.createdAt && a.id < b.id)))
  }

  /** What the broker receives. An empty topic is the NULL column. */
  datatype Content = Content(partitionKey: seq<byte>, topic: string, payload: string)
  datatype Row = Row(content: Content, attempts: int, lastError: Option<string>)
  datatype DeadRow = DeadRow(content: Content, attempts: int, lastError: string, failedAt: nat)
  datatype Lease = Lease(holder: Owner, until: nat)
  datatype Event = Event(key: Key, content: Content)

  datatype Tables = Tables(pending: map<Key, Row>, leases: map<nat, Lease>, dead: map<Key, DeadRow>)

  /** NewOutboxStore replaces non-positive settings by defaults, so both are positive here. */
  datatype Config = Config(bucketCount: nat, maxAttempts: nat) {
    predicate Valid() { 0 < bucketCount && 0 < maxAttempts }
  }

  const DEFAULT_MAX_ATTEMPTS: nat := 10

  function NewConfig(bucketCount: int, maxAttempts: int): (cfg: Config)
    ensures cfg.Valid() && (bucketCount > 0 ==> cfg.bucketCount == bucketCount)
    ensures (bucketCount <= 0 ==> cfg.bucketCount == 16) && (maxAttempts <= 0 ==> cfg.maxAttempts == 10)
    ensures maxAttempts > 0 ==> cfg.maxAttempts == maxAttempts
  {
    Config(if bucketCount <= 0 then DEFAULT_BUCKET_COUNT else bucketCount,
           if maxAttempts <= 0 then DEFAULT_MAX_ATTEMPTS else maxAttempts)
  }

  /** YDB timestamps have microsecond resolution. */
  function Micro(t: nat): nat { t - t % 1000 }

  /** Buckets are stored in a Uint8 column. */
  function Column(bucket: nat): nat { bucket % 256 }

  // ---- EnqueueTx ----

  datatype IdArg = Generate | Given(id: nat) | Malformed
  datatype NewEvent = NewEvent(id: IdArg, createdAt: Option<nat>, content: Content)
  datatype EnqueueError = NoPartitionKey | BadId | KeyTaken

  function RowKey(cfg: Config, ev: NewEvent, now: nat, generated: nat): Key
    requires cfg.Valid()
  {
    Key(Column(BucketOf(ev.content.partitionKey, cfg.bucketCount)),
        if ev.createdAt.None? then Micro(now) else Micro(ev.createdAt.value),
        if ev.id.Given? then ev.id.id else generated)
  }

  function RowContent(ev: NewEvent): Content {
    if ev.content.payload == "" then ev.content.(payload := "{}") else ev.content
  }

  function EnqueueTx(cfg: Config, t: Tables, ev: NewEvent, now: nat, generated: nat): Result<Tables, EnqueueError>
    requires cfg.Valid()
  {
    if ev.content.partitionKey == [] then Err(NoPartitionKey)
    else if ev.id.Malformed? then Err(BadId)
    else
      var key := RowKey(cfg, ev, now, generated);
      if key in t.pending then Err(KeyTaken)
      else Ok(t.(pending := t.pending[key := Row(RowContent(ev), 0, None)]))
  }

  // ---- leases ----

  predicate Held(t: Tables, bucket: nat, owner: Owner, stamp: nat) {
    var c := Column(bucket);
    c in t.leases && t.leases[c].holder == owner && stamp < t.leases[c].until
  }

  predicate Claimable(t: Tables, bucket: nat, owner: Owner, stamp: nat) {
    var c := Column(bucket);
    !(c in t.leases && t.leases[c].holder != owner && stamp < t.leases[c].until)
  }

  function LockedUntil(stamp: nat, ttl: nat): nat { Micro(stamp + ttl) }

  /** The buckets one claim takes, in increasing order. */
  function Claimed(t: Tables, owner: Owner, stamp: nat, count: nat): seq<nat> {
    if count == 0 then []
    else Claimed(t, owner, stamp, count - 1) + if Claimable(t, count - 1, owner, stamp) then [count - 1] else []
  }

  function Leased(t: Tables, owner: Owner, until: nat, stamp: nat, count: nat): map<nat, Lease> {
    if count == 0 then t.leases
    else if Claimable(t, count - 1, owner, stamp)
    then Leased(t, owner, until, stamp, count - 1)[Column(count - 1) := Lease(owner, until)]
    else Leased(t, owner, until, stamp, count - 1)
  }

  function ClaimTx(cfg: Config, t: Tables, owner: Owner, ttl: nat, stamp: nat): Tables {
    t.(leases := Leased(t, owner, LockedUntil(stamp, ttl), stamp, cfg.bucketCount))
  }

  /** A bucket changes hands only when its lease has lapsed on the claimant's clock; afterwards the
      claimant holds exactly the columns of the buckets it was given, and nobody else's lease moves. */
  lemma {:induction false} LeasedAt(t: Tables, owner: Owner, until: nat, stamp: nat, count: nat, c: nat)
    ensures var l := Leased(t, owner, until, stamp, count);
      if exists b | 0 <= b < count :: Column(b) == c && Claimable(t, b, owner, stamp)
      then c in l && l[c] == Lease(owner, until)
      else (c in l <==> c in t.leases) && (c in l ==> l[c] == t.leases[c])
  {
    if count > 0 {
      LeasedAt(t, owner, until, stamp, count - 1, c);
      if exists b | 0 <= b < count - 1 :: Column(b) == c && Claimable(t, b, owner, stamp) {
        var b :| 0 <= b < count - 1 && Column(b) == c && Claimable(t, b, owner, stamp);
        assert 0 <= b < count;
      }
    }
  }

  lemma {:induction false} ClaimedIff(t: Tables, owner: Owner, stamp: nat, count: nat, b: nat)
    ensures b in Claimed(t, owner, stamp, count) <==> b < count && Claimable(t, b, owner, stamp)
    ensures forall i, j :: 0 <= i < j < |Claimed(t, owner, stamp, count)|
              ==> Claimed(t, owner, stamp, count)[i] < Claimed(t, owner, stamp, count)[j]
    ensures forall i :: 0 <= i < |Claimed(t, owner, stamp, count)| ==> Claimed(t, owner, stamp, count)[i] < count
  {
    if count > 0 {
      ClaimedIff(t, owner, stamp, count - 1, b);
    }
  }

  // ---- the batch read ----

  function EffectiveLimit(limit: int): nat { if limit <= 0 then 100 else limit }

  /** The first `limit` rows of one bucket in key order. */
  predicate IsOldest(t: Tables, column: nat, limit: nat, batch: seq<Event>) {
    && |batch| <= limit
    && (forall i, j :: 0 <= i < j < |batch| ==> Less(batch[i].key, batch[j].key))
    && (forall i :: 0 <= i < |batch| ==>
          && batch[i].key in t.pending
          && batch[i].key.bucket == column
          && batch[i].content == t.pending[batch[i].key].content)
    && (forall k | k in t.pending && k.bucket == column ::
          (exists i | 0 <= i < |batch| :: batch[i].key == k)
          || (|batch| == limit && forall i | 0 <= i < |batch| :: Less(batch[i].key, k)))
  }

  /** leasedBucketEvents: the oldest rows, or nothing when the lease is not ours. */
  predicate IsBatch(t: Tables, bucket: nat, owner: Owner, limit: nat, stamp: nat, batch: seq<Event>) {
    if Held(t, bucket, owner, stamp) then IsOldest(t, Column(bucket), limit, batch) else batch == []
  }

  // ---- deleteEvent ----

  function DeleteTx(t: Tables, key: Key, owner: Owner, stamp: nat): Option<Tables> {
    if !Held(t, key.bucket, owner, stamp) then None
    else Some(t.(pending := t.pending - {key}))
  }

  // ---- recordPublishFailure ----

  datatype Recorded = LeaseLost | Done(tables: Tables, deadLettered: bool)

  function RecordTx(
    cfg: Config, t: Tables, key: Key, owner: Owner, kind: Class, message: string, stamp: nat, failedAt: nat): Recorded
  {
    if !Held(t, key.bucket, owner, stamp) then LeaseLost
    else if key !in t.pending then Done(t, false)
    else
      var row := t.pending[key];
      if kind == TransientClass then
        Done(t.(pending := t.pending[key := row.(lastError := Some(message))]), false)
      else
        var attempts := row.attempts + 1;
        if kind != PermanentClass && attempts < cfg.maxAttempts then
          Done(t.(pending := t.pending[key := row.(attempts := attempts, lastError := Some(message))]), false)
        else
          Done(t.(dead := t.dead[key := DeadRow(row.content, attempts, message, failedAt)],
                  pending := t.pending - {key}), true)
  }

  // ---- ReplayDeadLetter ----

  /** A reference as an operator supplies it: no creation time and an unparsable id are errors. */
  datatype Ref = Ref(bucket: int, createdAt: Option<nat>, id: Option<nat>)

  predicate ValidRef(cfg: Config, ref: Ref) {
    0 <= ref.bucket < cfg.bucketCount && ref.createdAt.Some? && ref.id.Some?
  }

  function RefKey(cfg: Config, ref: Ref): Key
    requires ValidRef(cfg, ref)
  {
    Key(Column(ref.bucket), Micro(ref.createdAt.value), ref.id.value)
  }

  datatype ReplayState = Requeued | AlreadyPending
  datatype ReplayError = BadRef | NotFound | Conflict

  function ReplayTx(t: Tables, key: Key): Result<(Tables, ReplayState), ReplayError> {
    if key !in t.dead then
      if key in t.pending then Ok((t, AlreadyPending)) else Err(NotFound)
    else if key in t.pending then Err(Conflict)
    else Ok((t.(pending := t.pending[key := Row(t.dead[key].content, 0, None)], dead := t.dead - {key}), Requeued))
  }

  /** The dead table's own 30-day time-to-live. */
  function ExpireTx(t: Tables, key: Key): Tables {
    t.(dead := t.dead - {key})
  }
}
