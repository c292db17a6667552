# Verified models of the Aheron Go SDK

Most of the SDK is HTTP plumbing, but some of its packages are protocols, state machines and exact transformations. This
project models those in Dafny and proves what they promise, for all inputs and all runs.

**Transactional outbox** (`PublishErrors`, `OutboxTables`, `TableEffects`, `OutboxProtocol`, `OutboxSafety`,
`OutboxTheorems`, `OutboxStores`, `OutboxEffects`, `OrderedReads`, `DeadLetterListing`, `RelayLease`). Any number of
relays share bucket leases over three tables. Each database transaction is one step; claims, reads, publishes,
deletions, recorded failures, operator replays, expiry of dead letters, crashes and lost replies interleave freely, and
every step brings its own clock reading. The store's methods are proved equal to the transactions, and a `PublishBucket`
call with everybody else running between its transactions is proved to be a run of the protocol. Conservation, order,
the attempt budget and fencing then hold of it, and so does what each step is for: which failure parks a row, what a
replay restores, whose lease a claim may take, and for how long a relay may act on it (`OutboxEffects`,
`DeadlineIsTheLeases`). Three results show where the promises end: a reused key breaks them exactly when it is that of a
dead letter (`KeyReuse`); a row created earlier but committed after a later one was delivered is overtaken for good, in
every continuation of every run (`LateCommit`); and the relay mistakes a pending row for a parked one exactly when the
publisher's own error already carries the dead-lettered mark (`TerminalMeansParked`).

**Read cache** (`CacheServer`, `CacheFlights`, `CacheTags`, `CacheKeys`, `CacheEffects`). The Lua scripts on one side,
reads, fills, invalidations and tag generations of any number of processes on the other. An observer notes source
versions and the time of each invalidation, and what the server stores and a read returns is compared with those notes.
`CacheEffects` has the other half: what is published is stored and served, and what is not wanted goes.

**Copy plans** (`Decimals`, `JsonPointers`, `Placements`, `CopyPlans`, `CopyBuilding`, `CopyResults`). JSON Pointers
with their laws of reading and replacing; a builder that moves values out of a settings document; validation of the
plan; hydration, which is the inverse of building in whatever order the references are listed. The plan says what the
calls asked for, and nothing else.

**Variables** (`References`, `Templates`, `NumberFormat`, `Values`). Reference parser and printer, template parser,
rendering as the pieces of a text one after the other, rewriting that keeps the meaning, exact expansion of JSON
numbers, and lookup. Numbers denote reals; no floating point occurs.

**OAuth tokens** (`TokenProvider`, `TokenEffects`, `OAuthScopes`). A bounded cache evicted by least recent use and one
cancellable acquisition per key, as steps between lock sections; scopes normalised to one cache key per set.

**Resource sources** (`SourceGraph`): a three-colour depth-first search that succeeds exactly on valid acyclic catalogs.
**Publication** (`Publication`): releasing a package through a service shared with other publishers, with lost messages;
wherever and whenever the one activation sent takes effect, nobody has moved its channels since they were read.
**Lifecycle** (`Lifecycle`): installation messages converge in every delivery order, exactly for well-formed histories.
**Canonical packages** (`CanonicalPackages`, `Rearranging`, `Sorting`, `Strings`), **merge patches** (`MergePatches`) and
**batch responses** (`BatchResponses`) are normal forms and checks on values.

The methods of the classes `OutboxStore`, `Server`, `Relay` and `Provider` are links, not results: each is the source's
code on mutable fields, proved equal to the transition function that the protocols take as a step, and the results are
the lemmas over runs of those steps. `Deployment` is the one class whose own runs are the subject. `FencedStep`,
`LostPublishIsRefused` and `FormerHolderIsPowerless` are one-step helpers of `FormerOwnerIsFenced` and `LostForGood`.
The modules called effects say what each step does without the transition functions: by rows, leases, stored values and
tokens.

What a package leaves to a library or to configuration (patterns of identifiers, JSON Schema, size limits, digests) is a
function-valued parameter, so what is proved holds for every such function; a digest is assumed to be injective where a
lemma says so.

## Model

| member | source | states |
|---|---|---|
| PublishErrors.ClassifyIsSeverity | outbox/outbox.go:188-205 | the class found by searching the chain of wrapped errors is the most severe class of any cause: wrapping or joining can neither hide nor invent one |
| PublishErrors.RetryAfterIsAsked | outbox/outbox.go:209-215 | the retry hint is never negative, and a positive one is what a transient cause asked for |
| PublishErrors.RetryAfterIs | outbox/outbox.go:209-215 | the hint is exactly that of the leftmost outermost transient cause, however deep it is wrapped, and zero where that asks for nothing or there is none |
| PublishErrors.BucketOf | outbox/outbox.go:401-408 | every key has a bucket below the count, or below the default count when the count is not positive |
| PublishErrors.FnvConcat | outbox/outbox.go:401-408 | a key is hashed byte by byte in its order |
| PublishErrors.XorBits | outbox/outbox.go:401-408 | the arithmetic exclusive or differs from zero in exactly the bits in which its arguments differ |
| PublishErrors.FnvVectors | outbox/outbox.go:401-408 | the published 32-bit FNV-1a values of the empty key and of "a", and the bucket of the latter among 16 |
| OutboxTables.LeasedAt | ydb/outbox.go:199-229 | after a claim the claimant holds exactly the columns of the buckets whose lease was its own, absent or lapsed; no other lease moves |
| OutboxTables.ClaimedIff | ydb/outbox.go:199-229 | the buckets returned are exactly the claimable ones, ascending and without repetition |
| TableEffects.ClaimTakesTheFree | ydb/outbox.go:173-233 | a claim takes exactly the columns that are nobody's, its own or lapsed, for the time asked for less at most a microsecond, and leaves every other lease as it is |
| OutboxTheorems.NothingIsLost | ydb/outbox.go:243-296 | in every reachable state an enqueued row is in exactly one of pending, dead, removed or expired; a removed row was delivered and a dead one parked; content never changes; replay never meets a conflict |
| OutboxTheorems.DeliveredInOrder | outbox/outbox.go:351-372 | before any delivery of a row, each row of the same partition key that was created earlier, by time and then id, and committed earlier has been delivered or dead-lettered |
| OutboxTheorems.BatchInOrder | ydb/outbox.go:260-294 | before a session sends a row it has delivered every smaller row of the bucket that was pending when the batch was read |
| OutboxTheorems.BudgetIsKept | ydb/outbox.go:479-557 | the attempts of a row count its non-transient failures since it entered pending: below the limit while pending, at most the limit when dead |
| OutboxTheorems.FormerOwnerIsFenced | ydb/outbox.go:381-408 | once another owner holds a bucket, no step of a former owner that does not claim again changes a row of it, over whole runs, and the other owner keeps it |
| OutboxTheorems.FencedStep | ydb/outbox.go:431-461 | helper of FormerOwnerIsFenced: a single step of an owner without the lease leaves the bucket's rows as they are |
| OutboxTheorems.LeaseMoves | ydb/outbox.go:173-233 | a lease changes hands only by a claim made when it had lapsed on the claimant's clock |
| OutboxTheorems.KeyReuse | ydb/outbox.go:740-793 | an insert keeps pending and dead disjoint, and replay free of conflicts, exactly when its key is not that of a dead letter |
| OutboxTheorems.LateCommit | ydb/outbox.go:331-348 | from any reachable state in which a row has been delivered, committing a row of its partition key with a smaller key gives only runs in which the later row was delivered while the earlier one was neither delivered nor parked: order by key needs order by commit |
| OutboxTheorems.OvertakenWhenLate | ydb/outbox.go:331-348 | no row is delivered or parked before its own commit, so each delivery made before that commit overtakes it |
| OutboxTheorems.LateCommitHappens | ydb/outbox.go:118-164 | a run from empty tables, claim included, that meets the premise of LateCommit |
| OutboxEffects.FailureIsRecorded | ydb/outbox.go:467-611 | in every reachable state a failed publish of a pending row under a running lease parks the row exactly when the error is permanent, or is not transient and the charges since it entered pending reach the limit with it; otherwise the row stays pending with its content, charged unless the failure is transient; without lease or row no table changes |
| OutboxEffects.FailureIsReported | ydb/outbox.go:263-293 | the call then returns the publish error, marked exactly when that failure parked the row, or the lost lease or database error |
| OutboxEffects.DeliveryIsDeleted | ydb/outbox.go:431-461 | a delivered row is deleted exactly under a running lease, no other row changes, and the loop goes on exactly when it was told so |
| OutboxEffects.PublishNeedsLease | ydb/outbox.go:357-408 | a row goes to the broker exactly under a running lease |
| OutboxEffects.ReadNeedsLease | ydb/outbox.go:301-355 | without a running lease the batch is empty; with it a pending row of the bucket is left out only where the batch is full, at 100 rows by default, of smaller ones |
| OutboxEffects.BrokerIsLogged | ydb/outbox.go:263-293 | helper: what the broker accepts, at once or late, is on record as delivered, and a failed publish is not |
| OutboxEffects.ReplayRestores | ydb/outbox.go:722-822 | in every reachable state a replayed dead letter is pending again with the content it was enqueued with and a whole budget; a pending row and an unknown one are told apart and left alone |
| OutboxEffects.DeliveredAsGiven | ydb/outbox.go:118-164 | on every run from empty tables, what is delivered, pending or dead carries the partition key, topic and payload that some call enqueued, under the bucket of that key, the id and the microsecond given |
| OutboxStores.TerminalMeansParked | outbox/outbox.go:188-223 | the error of a failed publish is terminal exactly for rows the call reports as parked if and only if the publisher's error does not already carry the dead-lettered mark |
| OutboxStores.ReportedTerminal | ydb/outbox.go:263-293 | a turn of the loop returns a terminal error exactly when its last transaction recorded the failure under the lease, its reply arrived, and it parked the row or the publisher's error carried the mark; a lost lease, a database error and a lost reply are never terminal |
| OutboxStores.OutboxStore.EnqueueTx | ydb/outbox.go:118-164 | the row is inserted as it was given, under its bucket, microsecond and id, or the call fails and nothing changes |
| OutboxStores.OutboxStore.ClaimBuckets | ydb/outbox.go:173-233 | the loop computes the claim transaction and returns exactly the buckets whose column was free |
| OutboxStores.OutboxStore.LeaseHeld | ydb/outbox.go:357-408 | true exactly when the owner's lease has not lapsed |
| OutboxStores.OutboxStore.LeasedBucketEvents | ydb/outbox.go:301-355 | the oldest pending rows of the bucket in key order up to the limit, with none skipped, or nothing without the lease |
| OutboxStores.OutboxStore.DeleteEvent | ydb/outbox.go:431-461 | the row goes only under the owner's lease, and nothing else changes |
| OutboxStores.OutboxStore.RecordPublishFailure | ydb/outbox.go:467-611 | under a running lease the row is charged, kept or moved to the dead table, and the call reports it parked exactly when the failure was the last one (permanent, or counted and at the limit); otherwise nothing changes |
| OutboxStores.OutboxStore.ReplayDeadLetter | ydb/outbox.go:722-822 | the dead letter becomes pending with no attempts, or the call reports already pending, unknown or conflict; a reference is refused exactly when its bucket is out of range or its time or id is missing |
| OutboxStores.Deployment.PublishBucket | ydb/outbox.go:243-296 | with every other actor between any two transactions the call is a run of the protocol, in which it read the batch it works on; it reports as published only rows the broker took, and the whole batch unless it reports an error, which is the one its last step makes it report: a lost lease or a failed publish unless the database failed |
| OutboxStores.Deployment.PublishOne | ydb/outbox.go:263-293 | one turn of the loop: check the lease, publish, then delete or record; the error returned is exactly the one its last transaction calls for: lost lease, database error, or the publish error with or without the dead-lettered mark |
| OrderedReads.First | ydb/outbox.go:331-348 | a query ordered by key with a limit gives the smallest keys ascending, and skips none |
| DeadLetterListing.ListDeadLetters | ydb/outbox.go:616-681 | a page is the smallest keys after the cursor up to the limit, with a cursor exactly when some are left |
| DeadLetterListing.ListingAscends | ydb/outbox.go:645-679 | over pages read from a changing table keys strictly ascend |
| DeadLetterListing.ListedExactlyOnce | ydb/outbox.go:645-679 | a row present at every read is listed exactly once when the listing ends |
| DeadLetterListing.ListAll | ydb/outbox.go:616-681 | following the cursor over an unchanged table ends and lists exactly its rows |
| DeadLetterListing.RefRoundTrip | ydb/outbox.go:843-855 | every key that is ever enqueued can be addressed by a valid reference |
| RelayLease.LiveContextMeansOwned | outbox/relay.go:344-435 | in every reachable state a lease context handed out for a bucket and not cancelled is the live one and its bucket is still owned |
| RelayLease.StaleTimerIsHarmless | outbox/relay.go:383-406 | a timer left from an earlier renewal changes nothing; the newest one ends ownership and cancels the context |
| RelayLease.DeadlinesAgree | outbox/relay.go:349-378 | arithmetic of DeadlineIsTheLeases: the end of the lease time counted from before the transaction exceeds the lease written by at most 1998 nanoseconds, and that is attained |
| RelayLease.DeadlineIsTheLeases | outbox/relay.go:349-378 | after a claim and the transaction it made, the relay hands out a bucket exactly when it was claimed and less than the lease time has passed since before the transaction; then the lease in the table is its own and ended, if at all, less than two microseconds before |
| RelayLease.MayLeaseUntilTheClaimsEnd | outbox/relay.go:344-435 | in every reachable state a bucket is handed out only if the last claim was given it, nothing has stopped the relay since, and the lease time of that claim has not passed; and then it is, unless an expiry timer ran at or after that end |
| RelayLease.RenewalKeepsContext | outbox/relay.go:359-380 | a claim of the same buckets keeps the context, any other cancels it |
| RelayLease.Relay.ClaimSucceeded | outbox/relay.go:359-380 | a changed set of buckets cancels the old context; a non-empty one is renewed to exactly the lease time after the start of the claim, an empty one ends the lease |
| RelayLease.Relay.RenewLeaseLocked | outbox/relay.go:383-406 | a new epoch and timer, and a new context when there is none |
| RelayLease.Relay.CancelLeaseLocked | outbox/relay.go:408-419 | the context is cancelled and the deadline cleared |
| RelayLease.Relay.TimerFired | outbox/relay.go:396-405 | only the newest epoch clears ownership |
| RelayLease.Relay.BucketLease | outbox/relay.go:428-435 | a context is handed out only before the deadline and for an owned bucket |
| RelayLease.CapStays | outbox/relay.go:600-610 | once the doubled cap has reached the maximum it stays there for every longer streak |
| RelayLease.CapDoubles | outbox/relay.go:600-610 | the cap is the minimum at first and doubles with each failure up to the maximum |
| RelayLease.StreakCounts | outbox/relay.go:500-535 | the streak is the number of failures after the last round trip that published or parked |
| RelayLease.Relay.DoubledCap | outbox/relay.go:600-610 | the loop computes that cap without exceeding the maximum on the way |
| RelayLease.Relay.DeferBucket | outbox/relay.go:593-619 | the delay is the hint, or what the jitter makes of the minimum doubled once per earlier failure and capped at the maximum |
| RelayLease.Relay.Settle | outbox/relay.go:500-535 | the backoff counts failures since the last success or parked row and lasts for the hint or the jittered cap; cancellation counts as neither |
| RelayLease.Relay.DrainBucket | outbox/relay.go:479-540 | whatever the store answers and the clock shows on each turn, a first batch is asked for exactly with the lease and when not backing off, another only after a full one, and what is reported is the sum of the replies |
| CacheServer.CreatedAt | readcache/cache.go:382-395 | the generations script keeps every generation there is and makes one for each missing tag |
| CacheServer.RenewedAt | readcache/cache.go:396-400 | invalidating tags renews exactly their generations |
| CacheServer.Server.RunAcquire | readcache/cache.go:216-221 | a stored value is a hit and a free lock is won, with nothing else changed; otherwise busy |
| CacheServer.Server.RunPublish | readcache/cache.go:222-227 | only the lock's holder succeeds; then the lock goes and the value is stored exactly when it has time to live |
| CacheServer.Server.RunRelease | readcache/cache.go:228-231 | only the lock's holder unlocks |
| CacheServer.Server.RunDiscard | readcache/cache.go:236-239 | a value is dropped only while it is the one that could not be used |
| CacheServer.Server.RunDel | readcache/cache.go:364-380 | value and lock go together |
| CacheServer.Server.RunGenerations | readcache/cache.go:382-395 | the loop returns the generation each tag has afterwards |
| CacheServer.Server.RunInvalidateTags | readcache/cache.go:396-400 | the loop renews every tag |
| CacheFlights.StoredIsFresh | readcache/cache.go:266-380 | in every reachable state a stored value came from a load that began after the last invalidation of its key and is no older than the source was then |
| CacheFlights.ReturnedIsFresh | readcache/cache.go:266-359 | so is a value that a read returns when it hits or publishes |
| CacheFlights.LostForGood | readcache/cache.go:316-359 | a holder whose lock expired or was invalidated never regains it by any step of anybody until it acquires again |
| CacheFlights.LostPublishIsRefused | readcache/cache.go:222-227 | helper of LostForGood: the publication of a holder that lost its lock is refused, changes nothing and sends it back to wait |
| CacheFlights.FormerHolderIsPowerless | readcache/cache.go:222-235 | helper of LostForGood: publish, release and renew by anybody but the holder leave the server as it is |
| CacheFlights.StepKeeps | readcache/cache.go:266-380 | every script, load, expiry and late request keeps the invariant of values, locks and fills |
| CacheEffects.PublishedIsServed | readcache/cache.go:216-227 | what the lock's holder publishes with time to live is stored and stays so through every run without an invalidation, an expiry, a drop or another publication of it; every read of the name meanwhile is handed exactly that and ends |
| CacheEffects.AcquireOutcome | readcache/cache.go:216-221 | a stored value is handed out and ends the call, a free lock is won, and otherwise the call waits, with nothing else changed |
| CacheEffects.PublishOutcome | readcache/cache.go:222-227 | the holder stores exactly when time to live is left, unlocks and hands its value out; anybody else changes nothing and waits again |
| CacheEffects.FailedLoadUnlocks | readcache/cache.go:228-231 | after a failed load the holder's lock is free and the call is over |
| CacheEffects.DropOutcome | readcache/cache.go:236-239 | dropping an unusable value takes that value and no newer one |
| CacheEffects.LoadsSeeCommits | readcache/cache.go:316-359 | a load that ends after a commit to its key brings a version the source had not reached before it |
| CacheTags.TaggedValueIsFresh | readcache/cache.go:430-459 | when both generation reads agree, the load behind the value began after every invalidation of any of its tags before the second read |
| CacheTags.StepKeeps | readcache/cache.go:416-471 | every step of the tag layer keeps its invariant |
| CacheEffects.ReadingIsStored | readcache/cache.go:382-395 | each generation read reports one generation for each tag, the one there was if there was one, and leaves it stored |
| CacheEffects.UndisturbedReturns | readcache/cache.go:430-459 | a tagged read during which none of its tags is invalidated and none of their generations expires returns at its second reading |
| CacheKeys.TagKeys | readcache/cache.go:402-414 | sorting and skipping neighbours gives each tag once in ascending order |
| CacheKeys.TagKeysDependOnSet | readcache/cache.go:402-414 | two calls have the same keys exactly when they have the same set of tags |
| CacheKeys.TaggedNamesAreDistinct | readcache/cache.go:440-446 | tagged entries of different keys or generations never share a stored name |
| CacheKeys.PlainMeetsTagged | readcache/cache.go:440-446 | a key given to Get is the stored name of a tagged entry exactly when it ends with the marker and a digest |
| CacheKeys.StoredNamesAreDistinct | readcache/cache.go:440-446 | where no key given to Get ends so and digests do not collide, different names, plain or tagged, are stored apart |
| CacheKeys.NeverServedLate | readcache/cache.go:140-196 | a value is never served from the cache at or after its deadline nor a day after it was loaded |
| CacheKeys.JitterOnlyShortens | readcache/cache.go:158-168 | jitter takes less than a tenth of the time left and never adds any |
| CacheKeys.JitterSpreads | readcache/cache.go:158-168 | different random bytes give different deadlines, over the last tenth of the time left |
| CacheKeys.ServedMostOfTheTime | readcache/cache.go:140-196 | a value is served for at least nine tenths of the time it had left, capped at a day |
| CacheKeys.ServerForgetsInTime | readcache/cache.go:316-359 | the lifetime sent to the server ends no later than the value's own and less than a millisecond sooner, and is positive exactly for storable values that last a millisecond |
| JsonPointers.EscapeRoundTrip | schemetransfer/validation.go:143-145 | unescaping undoes escaping for every key, as section 4 of RFC 6901 has it |
| JsonPointers.IndexOfItoa | schemetransfer/copy_plan.go:203-206 | the decimal form of an index names exactly that element, and none beyond the end |
| JsonPointers.LookupIffKeys | schemetransfer/copy_plan.go:179-222 | a path finds a node exactly when it is the pointer made of keys that lead to it through fields and decimal indexes: no other spelling of a path is accepted |
| JsonPointers.ReplaceLaws | schemetransfer/copy_plan.go:179-222 | what is replaced is read back, a second replacement supersedes the first, and putting back what was there changes nothing |
| JsonPointers.ReplaceApart | schemetransfer/copy_plan.go:179-222 | replacing at paths that do not overlap commutes, and neither disturbs what the other reads |
| JsonPointers.PartsOverlap | schemetransfer/copy_plan.go:79-87 | the textual overlap test rejects exactly the pairs of paths one of which leads to or through the other |
| JsonPointers.ChildAt | schemetransfer/validation.go:143-145 | the pointer to a child leads to that child, and replacing there replaces the child |
| Placements.AnyOrder | schemetransfer/copy_plan.go:56-68 | writes to places that are apart give one result in every order |
| CopyPlans.ValidatePlan | schemetransfer/copy_plan.go:70-140 | a plan is accepted exactly when no two paths overlap, every reference is a null with sound semantics and value, no library entry carries two files and every template parses |
| CopyPlans.CheckReference | schemetransfer/copy_files.go:99-112 | one reference passes exactly when its file, encoding and value are sound and its file agrees with those recorded |
| CopyPlans.CheckPath | schemetransfer/copy_plan.go:79-87 | a path passes exactly when it overlaps none seen and leads somewhere |
| CopyPlans.WhatIsAcceptable | schemetransfer/validation.go:220-239 | by kind of resource: which encodings, values and files a reference may have |
| CopyPlans.WhatIsValid | schemetransfer/copy_plan.go:70-140 | a plan is valid exactly when its paths are apart, null stands at each reference, an accepted text at each template, and files agree |
| CopyBuilding.HydratedSettings | schemetransfer/copy_plan.go:56-68 | hydration succeeds exactly on valid responses and puts every value back |
| CopyBuilding.HydrationRestoresSettings | schemetransfer/copy_plan.go:246-323 | for any settings and any calls, if Build succeeds then hydration gives the original settings, in any order of the references, and the skeleton holds null at each path |
| CopyResults.PlanIsAsAsked | schemetransfer/copy_plan.go:246-323 | if Build succeeds, each reference of the plan has the encodings, resource, file and path that some call asked for and the value the settings had there, every single reference and file asked for is there, and the templates are those noted, in order |
| CopyBuilding.ListMovesEveryItem | schemetransfer/copy_plan.go:272-290 | a list is moved out item by item under its own index and leaves as many nulls |
| CopyBuilding.CopyBuilder.constructor | schemetransfer/copy_plan.go:233-244 | an empty draft of the settings, or an error for what is too complex or no object |
| CopyBuilding.CopyBuilder.Reference | schemetransfer/copy_plan.go:246-262 | the value at the path is moved into a reference and null left behind, unless an earlier call failed or the path leads nowhere |
| CopyBuilding.CopyBuilder.Resource | schemetransfer/copy_plan.go:264-266 | the same for a value owned by an integration |
| CopyBuilding.CopyBuilder.SubjectVariable | schemetransfer/copy_plan.go:268-270 | the same for the key of a subject variable |
| CopyBuilding.CopyBuilder.Template | schemetransfer/copy_plan.go:292-295 | the path is noted, whatever failed before |
| CopyBuilding.CopyBuilder.ResourceList | schemetransfer/copy_plan.go:272-290 | the loop moves the elements of a list in order; at what is no list the call fails and moves nothing |
| CopyBuilding.CopyBuilder.File | schemetransfer/copy_files.go:22-28 | the file is attached to the reference just made |
| CopyBuilding.CopyBuilder.Build | schemetransfer/copy_plan.go:302-323 | a response exactly when no call failed and the plan is valid |
| References.ParsedHasExpression | variables/reference.go:44-94 | every parsed reference has an expression, and it reads back to the same reference |
| References.ExpressionIsPlain | variables/reference.go:74-94 | an expression has no braces and reads back to its reference |
| References.WhichHaveExpressions | variables/reference.go:74-94 | exactly the references that parsing can give have an expression: qualifier, key and access path joined by dots |
| Templates.ParseV1 | variables/template.go:37-63 | the loop computes the parts, or the offset of the malformed placeholder |
| Templates.ParsesIffTiles | variables/template.go:37-63 | a text parses to a list of parts exactly when they tile it: contiguous, literals maximal and free of opening pairs, placeholders closed at the first closing pair |
| Templates.ErrorIsAtPlaceholder | variables/template.go:49-57 | the offset of a syntax error is that of an opening pair not closed around a reference |
| Templates.Rewrite | variables/template.go:139-164 | the loop writes each part in turn, its own text or the expression of the mapped reference, up to the first error |
| Templates.RewriteIsWriting | variables/template.go:139-164 | rewriting gives the written parts one after the other, or the error of the first that cannot be written |
| Templates.RewriteParses | variables/template.go:139-164 | what Rewrite writes parses to the same literals and exactly the mapped references |
| Templates.Render | variables/template.go:99-134 | the loop gives the pieces of all parts one after the other, or the error of the first part without one; an unsupported missing policy is refused |
| Templates.RenderedText | variables/template.go:99-134 | rendering a parsed text succeeds with s exactly when s is the pieces of its parts: for a literal what the text says there, for a value found its formatted form escaped once, for a missing one nothing where that is allowed; otherwise the error is that of the first part without a piece, at its offset |
| Templates.PlainTextRenders | variables/template.go:99-134 | a text without an opening pair renders to itself |
| Templates.EchoRendersText | variables/template.go:99-134 | where each placeholder is rendered as it is written, the result is the text |
| Templates.RewritePreservesMeaning | variables/template.go:99-164 | rendering the rewritten text is rendering the original with references mapped first, errors included but for their offsets |
| Templates.VariablesKeepMeaning | variables/template.go:99-164 | both of these for the SDK's own reference syntax |
| Templates.ParsedCanBeWritten | variables/reference.go:74-94 | writing out what was parsed never fails |
| NumberFormat.FormatNumber | variables/values.go:127-169 | the body computes the expansion, refusing what is no number or too long |
| NumberFormat.FormattedIsExact | variables/values.go:127-169 | the output is a JSON number of the same sign and value, without exponent, idle zeros or bare point, and at most 4099 characters long |
| NumberFormat.OneTextForEachNumber | variables/values.go:127-169 | two accepted tokens are written alike exactly when they have the same sign and value |
| NumberFormat.WhichAreAccepted | variables/values.go:127-169 | a token is accepted exactly when it is a number with an exponent of at most 4096 either way and at most 4096 digits, in all and on either side of the point |
| NumberFormat.Expand | variables/values.go:151-168 | zeros and the point are placed and idle zeros dropped |
| Values.Walk | variables/values.go:62-82 | the loop follows the path through properties and canonical indexes |
| Values.Lookup | variables/values.go:26-58 | a reference stands for exactly the node its qualified expression names as a path into all values, and one without an expression is refused |
| Values.DocumentHolds | variables/values.go:26-58 | that document: each scope under its own name, the project with its own id in place of a variable of that name, and every integration whose name is not reserved |
| TokenProvider.ReturnedTokensFit | integrationoauth/provider.go:137-187 | every token ever returned was fetched for the caller's key and had not expired |
| TokenProvider.FlightsAreShared | integrationoauth/provider.go:137-241 | one live flight per key and then no cache entry; its waiter count is the number of callers waiting; a cancelled flight has none; both tables keep their bound |
| TokenProvider.CancelledFlightIsInert | integrationoauth/provider.go:221-237 | a cancelled flight changes nothing when it lands |
| TokenProvider.EvictsLeastRecentlyUsed | integrationoauth/provider.go:225-237 | the entry that makes room is the one whose key was used longest ago, and no other goes |
| TokenProvider.RejectedStaysOut | integrationoauth/provider.go:189-241 | once no entry and no flight has a rejected token, none ever has again unless it is issued anew, over whole runs |
| TokenEffects.UsableIsReturned | integrationoauth/provider.go:145-168 | a caller is given the cached token of its key exactly until it is due for refresh, and no fetch begins |
| TokenEffects.OthersWait | integrationoauth/provider.go:145-168 | any other caller joins the one flight of its key, opening it while there is room, and is refused otherwise |
| TokenEffects.FetchOutcome | integrationoauth/provider.go:213-219 | a fetch brings its token only when it succeeded in time and was not cancelled |
| TokenEffects.LandingStores | integrationoauth/provider.go:213-241 | a flight that succeeds stores what it fetched and the oldest entry of a full cache goes, and no other; any other landing leaves the cache as it is |
| TokenEffects.WaiterIsServed | integrationoauth/provider.go:170-187 | a caller that waited to the end is given the token of its flight if that has not expired |
| TokenEffects.InvalidateTakesTheRejected | integrationoauth/provider.go:202-211 | afterwards the key has no entry with the rejected token; an entry with another token, other keys, flights and waiters are as they were: a late rejection never removes a newer token |
| TokenEffects.InvalidatedIsNotReturned | integrationoauth/provider.go:189-241 | from then on, over whole runs, no caller is given the rejected token from the cache unless it is issued anew or a flight under way brings it |
| TokenEffects.FetchedIsServed | integrationoauth/provider.go:137-241 | on every run a token that landed is given to every caller of its key without another fetch until its refresh is due, unless it is rejected or evicted first |
| TokenProvider.StepKeeps | integrationoauth/provider.go:137-241 | every step keeps the invariant of flights, entries and returned tokens |
| TokenProvider.RefreshedInTime | integrationoauth/token_http.go:101-108 | a token is refreshed after at least 85 hundredths of its lifetime and before the last tenth of it |
| TokenProvider.Provider.Token | integrationoauth/provider.go:145-168 | the first critical section: hit, full, or joined to the key's flight |
| TokenProvider.Provider.Leave | integrationoauth/provider.go:170-178 | the last waiter to leave cancels and unregisters the flight |
| TokenProvider.Provider.Acquired | integrationoauth/provider.go:213-241 | only a registered flight that succeeded stores its token, evicting the oldest entry of a full cache |
| TokenProvider.Provider.Oldest | integrationoauth/provider.go:226-233 | the loop over the entries, in any order, finds one with the least stamp |
| TokenProvider.Provider.Invalidate | integrationoauth/provider.go:202-211 | exactly the entry of the key that holds the rejected token goes |
| OAuthScopes.NormalizeScopes | integrationoauth/provider.go:254-270 | accepted exactly for 1 to 128 valid distinct scopes that fit joined, and then joined in ascending order |
| OAuthScopes.WhatIsAcceptable | integrationoauth/provider.go:254-270 | from 1 to 128 different scopes of 1 to 128 visible ASCII characters other than quote and backslash, with no more than 4096 characters in all, spaces between them included |
| OAuthScopes.ScopesIdentifyTheSet | integrationoauth/provider.go:254-270 | two accepted requests share a key exactly when they ask for the same set of scopes |
| SourceGraph.ValidateResourceSources | schemetransfer/validation.go:283-348 | success exactly when every parameter names a declared source, dependencies are acyclic and every source passes its checks; then all constraints are compiled |
| SourceGraph.WhatIsValid | schemetransfer/validation.go:301-336 | which sources pass their own checks, by whether they import files |
| SourceGraph.Search.Visit | schemetransfer/validation.go:292-341 | a visit finishes the source and all it depends on, or proves the catalog invalid; it ends because unvisited sources decrease |
| SourceGraph.OrderedIsAcyclic | schemetransfer/validation.go:283-348 | an order in which every source follows its dependencies rules out cycles |
| SourceGraph.StackIsCycle | schemetransfer/validation.go:293-295 | meeting a source that is still being visited means there is a cycle |
| Publication.PublishPackage | documentation/publish.go:39-130 | at most one activation is sent, none when the operation had a receipt when asked, after the package was uploaded where asked to and naming revisions read before it was sent; by the end it has overwritten nothing that was not read; success means the stored receipt and then the channels, observed one after the other, agree on package, contract, source and revision; undisturbed, a new operation takes effect with exactly one commit and succeeds even if the answer to its activation is lost, and an earlier one that stands is confirmed without any |
| Publication.Check | documentation/publish.go:54-82 | a receipt passes only when it is the operation's and the channels, the contract's first and then the current one, were observed to carry its digest, source and revision; undisturbed, one that stands passes |
| Publication.ConfirmedIsCurrent | documentation/publish.go:54-82 | after success the operation took effect exactly once, with this package, and nobody had moved its channel, nor the current channel when asked for, since then and until each was read |
| Publication.NothingIsOverwritten | documentation/publish.go:94-122 | for the activation PublishPackage sent and any later state of the service: wherever it took effect, by whichever delivery, the channels were read before that commit and nobody moved them in between |
| Publication.ReceiptStays | documentation/publish.go:82-88 | an operation's receipt never changes, however many retries and other publishers follow |
| Publication.CommitKeeps | documentation/publish.go:108-130 | no operation ever takes effect twice, and each commit finds its channels at the revisions it names |
| Publication.RequestStands | documentation/publish.go:94-130 | a request for the revisions as they are is committed, and its receipt then stands |
| Lifecycle.ConvergesIffStream | integration/lifecycle.go:132-166 | no delivery order of a set of messages is ever refused if and only if they have one project and integration, distinct sequences and events, and no install after an uninstall of the same installation |
| Lifecycle.StreamConverges | integration/lifecycle.go:132-166 | every delivery order, with repetition, ends in the state of the highest sequence delivered |
| Lifecycle.DecisionIsConsistent | integration/lifecycle.go:132-201 | an accepted message gets a receipt valid for it and no other; the watermark never falls; the state changes only when the message is applied |
| Lifecycle.FirstMessage | integration/lifecycle.go:51-66 | a first message is accepted exactly when it names the protocol, everybody concerned, a sequence and an action, and carries settings, if any, for an install of its own |
| Lifecycle.OnlyAppliedSettingsPass | integration/lifecycle.go:82-92 | stored settings pass exactly when the highest message delivered is an install that carried them |
| CanonicalPackages.FoldIffLines | documentation/package.go:71-77 | two texts fold alike exactly when they have the same lines |
| CanonicalPackages.CanonicalPackage | documentation/package.go:54-121 | accepted exactly when valid and without repeated documents, topics or providers, and then folded and sorted |
| CanonicalPackages.WhichTextsAreValid | documentation/package.go:63-81 | which documents pass their own checks; whether a title, summary or body is blank does not depend on line ends |
| CanonicalPackages.WhichAreAcceptable | documentation/package.go:54-121 | which packages are accepted before they are encoded: identity, limits, and no repeated document, topic or provider |
| CanonicalPackages.NormalForm | documentation/package.go:54-121 | packages have one canonical package exactly when they differ only in order and line ends; equivalent packages are accepted or rejected together |
| CanonicalPackages.CanonicalTwice | documentation/package.go:54-121 | a canonical package is accepted and is its own canonical package |
| Sorting.SortChecked | documentation/package.go:81-101 | sorting and comparing neighbours finds out exactly whether members are valid and keys distinct |
| MergePatches.MergeAuthoringObject | integration/blockauthoring.go:73-91 | in any order of keys the result is the MergePatch function of section 2 of RFC 7396 |
| MergePatches.UnpatchedStays | integration/blockauthoring.go:73-91 | fields outside the patch are unchanged at every depth |
| MergePatches.PatchedIsSet | integration/blockauthoring.go:73-91 | where the patch has a value the result has it, and nothing where it has null |
| MergePatches.PatchTwice | integration/blockauthoring.go:73-91 | applying a patch twice is applying it once |
| MergePatches.AuthoringSettings | integration/blockauthoring.go:35-71 | new settings are returned as they are; an edit needs base and changes, no settings, and a result that fits |
| BatchResponses.ValidateLookup | schemetransfer/runtime.go:104-146 | accepted exactly when items are sound, distinct, within the limit (100 by default) and, for a resolve, among those asked for without a cursor |
| BatchResponses.ValidateIdentify | schemetransfer/runtime.go:150-177 | accepted exactly when matches are as many as inputs, with distinct indexes in range and sound items |
| BatchResponses.ValidateResponses | schemetransfer/runtime.go:104-177 | with the check of one item that is made: each accepted item has an id and a title that are not blank, and a reason unless it can be chosen |
| BatchResponses.OneAnswerForEach | schemetransfer/runtime.go:150-177 | an accepted identify response answers every input exactly once |
| BatchResponses.ResolvedOnce | schemetransfer/runtime.go:104-146 | an accepted resolve response has at most one item for each identity asked for and none for any other, hence no more items than identities |

## Left out

- HTTP clients, transport policy, JWT and JWKS handling, observers, logging and command-line programs: I/O plumbing whose logic is field checks.
- YDB query text and driver retries: each transaction is its atomic effect, and a reply may be lost. The bucket column is one byte wide in the model as in the table; attempts do not wrap at 32 bits.
- OutboxStores.Deployment.PublishBucket: clock readings, broker answers and failures are arbitrary; nothing is said about progress.
- OutboxTheorems.DeliveredInOrder: needs the earlier row to have been committed first; LateCommit shows that key order alone does not give it, and a row committed between the later one's commit and its delivery may come either way.
- RelayLease.Relay.DrainBucket: a run of full batches is cut off after any given number of turns, where the source goes on; the jitter is any function of the cap, drawn at most once in a call.
- CacheFlights.StoredIsFresh: read and GetTagged are loops of steps that need not end, as the originals are; lost requests, late requests and fallbacks past the server are steps; a failed cache operation begins a direct load, whose result carries no promise about later invalidations.
- CacheKeys.TagKeys: tag hashes are left out; SHA-256 is taken to be injective.
- CacheKeys.NeverServedLate: a value that a fill itself returns is not compared with its deadline by the source, so nothing is said of it.
- JsonPointers.ReplaceLaws: documents are values, so aliasing between nodes edited in place is not modelled; JSON text and its numbers' syntax are not, except in NumberFormat.
- CopyPlans.ValidatePlan: size, depth and node limits and the JSON Schema are open predicates; constraints and ValidateSources are left out.
- Templates.ParseV1: offsets count characters, not bytes; Render's value formatting and escaping are open functions and its resolver is a function of the reference.
- Values.Lookup: values of Go types other than decoded JSON are left out.
- TokenProvider.Provider.Acquired: flights are numbered instead of shared by pointer; the sequence is assumed not to reach the largest 64-bit number.
- OAuthScopes.NormalizeScopes: the other parts of a request key are identifiers checked one by one.
- SourceGraph.ValidateResourceSources: JSON Schema compilation is an open predicate.
- Publication.PublishPackage: the service is assumed to store a receipt together with each commit, to compare revisions, and to answer truly when an answer names what was asked; undisturbed means no other publishers, no lost request and no lost answer but that to the activation; package canonicalisation and the publication context are separate.
- Lifecycle.ConvergesIffStream: the digest is assumed injective on messages.
- CanonicalPackages.CanonicalPackage: patterns, byte sizes and the two MiB limit are open functions; that strings are valid UTF-8 is given.
- BatchResponses.ValidateIdentify: that an index is not negative is checked by the JSON Schema of the response, which is otherwise not modelled.
- Provisioning, library catalogs, import plans and the other packages of the SDK: only field checks and calls.
