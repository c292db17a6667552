/** What each transaction does to the rows and leases, told without the functions that define it. */
module TableEffects {
  import opened Basics
  import opened OutboxTables
  import opened PublishErrors

  /** The owner's lease has been claimed and still runs. */
  predicate LeaseRuns(t: Tables, column: nat, owner: Owner, stamp: nat) {
    column in t.leases && t.leases[column].holder == owner && stamp < t.leases[column].until
  }

  /** Nothing but the row `key` differs. */
  ghost predicate OnlyRow(t: Tables, u: Tables, key: Key) {
    && u.leases == t.leases
    && (forall k | k != key :: k in u.pending <==> k in t.pending)
    && (forall k | k != key && k in t.pending :: u.pending[k] == t.pending[k])
    && (forall k | k != key :: k in u.dead <==> k in t.dead)
    && (forall k | k != key && k in t.dead :: u.dead[k] == t.dead[k])
  }

  // ---- recordPublishFailure ----

  /** A failure of this kind is the row's last: it is permanent, or counted and the limit is reached. */
  predicate LastFailure(error: Error, failures: int, limit: nat) {
    Severity(error) == PermanentClass || (Severity(error) != TransientClass && failures + 1 >= limit)
  }

  /** A recorded failure leaves the row pending, charged unless it is transient, or makes it a dead letter. */
  ghost predicate RowRecorded(
    t: Tables, u: Tables, key: Key, content: Content, failures: nat, limit: nat, error: Error, message: string,
    failedAt: nat)
  {
    && OnlyRow(t, u, key)
    && (key in u.dead <==> LastFailure(error, failures, limit))
    && (key in u.dead ==> key !in u.pending && u.dead[key] == DeadRow(content, failures + 1, message, failedAt))
    && (key !in u.dead ==>
          && key in u.pending
          && u.pending[key]
             == Row(content, if Severity(error) == TransientClass then failures else failures + 1, Some(message)))
  }

  lemma RecordEffect(
    cfg: Config, t: Tables, key: Key, owner: Owner, error: Error, message: string, stamp: nat, failedAt: nat)
    requires key in t.pending && key !in t.dead && 0 <= t.pending[key].attempts
    ensures match RecordTx(cfg, t, key, owner, Classify(error), message, stamp, failedAt)
            case LeaseLost => true
            case Done(u, parked) =>
              && RowRecorded(t, u, key, t.pending[key].content, t.pending[key].attempts, cfg.maxAttempts, error,
                             message, failedAt)
              && (parked <==> key in u.dead)
  {
    ClassifyIsSeverity(error);
  }

  // ---- ClaimBuckets ----

  /** The column is free for the claimant: nobody's, its own, or lapsed. */
  predicate Free(t: Tables, column: nat, owner: Owner, stamp: nat) {
    column !in t.leases || t.leases[column].holder == owner || t.leases[column].until <= stamp
  }

  /** A claim takes every free bucket and no other, until its own end less at most a microsecond. */
  lemma ClaimTakesTheFree(cfg: Config, t: Tables, owner: Owner, ttl: nat, stamp: nat, b: nat)
    requires b < cfg.bucketCount
    ensures b in Claimed(t, owner, stamp, cfg.bucketCount) <==> Free(t, b % 256, owner, stamp)
    ensures var c, u := b % 256, ClaimTx(cfg, t, owner, ttl, stamp);
      && u.pending == t.pending && u.dead == t.dead
      && c in u.leases
      && if Free(t, c, owner, stamp)
         then u.leases[c].holder == owner && stamp + ttl - 1000 < u.leases[c].until <= stamp + ttl
         else u.leases[c] == t.leases[c]
  {
    ClaimedIff(t, owner, stamp, cfg.bucketCount, b);
    LeasedAt(t, owner, LockedUntil(stamp, ttl), stamp, cfg.bucketCount, b % 256);
    assert Claimable(t, b, owner, stamp) <==> Free(t, b % 256, owner, stamp);
  }

  // ---- ReplayDeadLetter ----

  lemma ReplayEffect(t: Tables, key: Key)
    requires key in t.dead ==> key !in t.pending
    ensures match ReplayTx(t, key)
            case Ok((u, Requeued)) =>
              && key in t.dead && OnlyRow(t, u, key) && key !in u.dead
              && key in u.pending && u.pending[key] == Row(t.dead[key].content, 0, None)
            case Ok((u, AlreadyPending)) => u == t && key !in t.dead && key in t.pending
            case Err(e) => e == NotFound && key !in t.dead && key !in t.pending
  {
  }

  // ---- EnqueueTx ----

  /** The key and the content are those of the event as it was given. */
  predicate AsGiven(cfg: Config, ev: NewEvent, now: nat, generated: nat, key: Key, content: Content) {
    var at := if ev.createdAt.Some? then ev.createdAt.value else now;
    && cfg.Valid() && ev.content.partitionKey != [] && !ev.id.Malformed?
    && key.bucket == BucketOf(ev.content.partitionKey, cfg.bucketCount) % 256
    && key.createdAt <= at < key.createdAt + 1000 && key.createdAt % 1000 == 0
    && key.id == (if ev.id.Given? then ev.id.id else generated)
    && content.partitionKey == ev.content.partitionKey && content.topic == ev.content.topic
    && content.payload == if ev.content.payload == "" then "{}" else ev.content.payload
  }

  lemma EnqueueGives(cfg: Config, t: Tables, ev: NewEvent, now: nat, generated: nat)
    requires cfg.Valid()
    ensures var r := EnqueueTx(cfg, t, ev, now, generated);
      && (r.Ok? ==> AsGiven(cfg, ev, now, generated, RowKey(cfg, ev, now, generated), RowContent(ev)))
      && (r.Ok? <==>
            ev.content.partitionKey != [] && !ev.id.Malformed? && RowKey(cfg, ev, now, generated) !in t.pending)
      && (r.Ok? ==> var key := RowKey(cfg, ev, now, generated);
            OnlyRow(t, r.value, key) && r.value.dead == t.dead
            && key in r.value.pending && r.value.pending[key] == Row(RowContent(ev), 0, None))
  {
  }
}
