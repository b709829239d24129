# queue-ti, verified

A Dafny model of the queue-ti message queue, of the caches its instances share, of its schema check and of its Node
consumer, with proofs of what they keep over whole runs.

The model has five parts.

* **The queue.** `Tables` holds the rows of the six tables: messages, deliveries per consumer group, groups, topic
  configuration, token buckets and the archive. `Enqueue`, `Throttle`, `Claims`, `Lifecycle`, `Groups`, `Maintenance`
  and `Replay` give every service call as a function from a database to a database and a reply. `Machine` makes them
  the steps of one state machine and defines a run. `RowHistory` and `Histories` say what one step, and then a run,
  can do to one row. On top of these stand `ExclusiveClaims`, `Conservation`, `Content`, `DeadLetters`,
  `DeliveryBound`, `DeadLetterReturn`, `GroupDeliveryBound`, `RetryLaw`, `Fifo`, `FanOut`, `KeyDedup`, `ReapedEnqueue`,
  `BatchClaim`, `DeadLetterBatch`, `Throughput`, `ReplayCounting`, and the erasure theorems `ReaperErasure`,
  `ReplayErasure` and `GroupIndependence`. `ClaimEffects`, `SettlingEffects` and `Upkeep` say what one claim, one ack,
  nack or requeue, and one reaper pass, purge or trim, does to every row.
* **The service object.** `ServiceObject.Service` has the tables and caches as fields. Its methods fetch, branch and
  update as the Go methods do; each is proved to compute the step the theorems are about.
* **The caches of many instances.** `ConfigCache` and `SchemaCache`: processes, a shared cache, the database, and
  notifications that may be late, with writers that take several steps. `SchemaVersions` says when a compiled schema
  is the right one. `ConfigReads` says which configuration a call reads, and `CachedRuns` puts the queue on top of the
  configuration caches.
* **Payload checking.** `Avro` is the structural validator. `AvroValues` says what the values of a schema are, and that
  their JSON form is accepted; `AvroExample` is the example generator of the UI, and says when its output is.
* **The Node consumer's slots.** `Semaphore` is the step machine behind `drainStream`, `DrainStream.Drain` its closure
  with the variables as fields.

Every call is one atomic step at one reading of a clock that does not go back. The clock, generated identifiers, what a
call read from the configuration cache, and the order in which a replay visits the archive are arguments of the step.
Rows created at the same instant are ordered by identifier. What the schema migrations add to the statements is assumed
as follows: inserting a message gives each registered group of its topic a pending delivery whose `max_retries` is a
parameter; a message's deliveries are deleted with it; `(topic, key)` is unique among pending keyed rows, and a
statement that would break this fails and changes nothing.

## Where the promise needs a condition

* A dead letter can be promoted again, without end, exactly when the global threshold is 1
  (`DeliveryBound.BoundedIffThresholdNotOne`), and exactly then a requeue need not bring a message back from its
  promotion (`DeadLetterReturn.RestoresIffThresholdNotOne`). Both hold as stated of the runs whose calls read their
  configuration through the caches (`CachedRuns.BoundedThroughCachesIff`, `CachedRuns.RestoresThroughCachesIff`). The
  comment on `Nack` (backend/internal/queue/lifecycle.go:96) says a dead letter cannot be auto-retried.
* A requeue succeeds exactly when the original topic has a name and its key is not pending there
  (`DeadLetters.RequeueOutcome`). It restores `max_retries` to the dead-letter threshold, not to its old value.
* `DequeueN` equals single claims exactly unless the topic ends in `.dlq` and there is something to claim
  (`BatchClaim.BatchRefinesSingles`); there it does differ in some run (`DeadLetterBatch.BatchMissesDeadLetter`).
* Every pending row and delivery of a run stays claimable until it expires exactly when each keyed upsert sets
  `max_retries` to 0 or above the retries used (`Fifo.AlwaysReadyIffGentle`, for limits that are not negative).
* Erasing the reapers from a run of keyless messages leaves the replies to all claims and enqueues as they are exactly
  when no depth guard on the way decides otherwise (`ReaperErasure.InvisibleIffVerdictsAgree`); without depth limits
  none does, and with one it can (`ReaperErasure.ReapersShow`). One expiry pass changes the reply to an enqueue, keyed
  or not, exactly when it brings the queue below its depth limit or expires the pending holder of the key
  (`ReapedEnqueue.ReapingChangesEnqueue`). Without the pass, an enqueue over an expired holder is accepted and stores
  what nobody can claim (`ReapedEnqueue.LapsedHolderBuries`).
* Compiled schemas are right under every schedule exactly when the table never reuses a version for a schema that
  compiles differently (`SchemaVersions.RightIffVersionsFixCompilation`). A deletion restarts the count, so deleting a
  schema and registering another breaks it, on one process with overlapping calls as on two.
* The example payload is accepted exactly when the schema takes its own example (`AvroExample.AcceptedIffTakes`);
  where no union has two records that is when it `Fits` (`AvroExample.AcceptedIfFits`). Records nested eleven deep and
  required fields called `__proto__` do not.
* A non-positive concurrency handles nothing (`Semaphore.NoWakeUpIsLost`). With a positive one, an unfinished message
  is certain to be finished when the stream resolves exactly if it arrived before settling
  (`Semaphore.AwaitedIffArrivedBefore`), although a comment at clients/node/src/consumer.ts:169 promises that no
  message is dropped.
* No step returns a `processing` row whose visibility deadline has passed to pending, so nothing is redelivered on a
  timeout, although README.md:12 of the repository says so; `ExclusiveClaims.ClaimsAreExclusive` names the only ways
  back. A nacked message is claimable at once, not after the timeout (clients/node/README.md:202).
* Short of the threshold, `max_retries = 0` fails a plain message on its first nack and never fails a group's delivery
  (`GroupDeliveryBound.ZeroRetries`).

## Model

| member | source | states |
|---|---|---|
| ExclusiveClaims.ClaimsAreExclusive | backend/internal/queue/dequeue.go:110-128 | over any run, between two plain claims of a message there is a successful Nack or Requeue of it, however much time passes |
| ExclusiveClaims.GroupClaimsAreExclusive | backend/internal/queue/dequeue.go:191-211 | the same for a (message, group) pair: a NackForGroup of the pair, or a registration of the group on the message's topic |
| Conservation.Conserved | backend/internal/queue/lifecycle.go:76-82 | in every reachable state the live, acked, purged and expired identifiers partition those ever inserted |
| Conservation.BooksGrow | backend/internal/queue/purge.go:12-38 | acked, purged and expired identifiers stay so |
| Conservation.ArchivedOnce | backend/internal/queue/lifecycle.go:25-46 | archived identifiers were acked, are not live, and none has two archive rows |
| Conservation.LogRowFate | backend/internal/queue/replay.go:138-150 | an archive row of a message that is gone is there later exactly if it was there and no trim or archive-reaper pass covered it |
| Conservation.AckedStaysArchived | backend/internal/queue/lifecycle.go:48-90 | a message acked, plainly or by its last group, is in the archive at any later time exactly if its topic was replayable then and no trim or reaper pass since covered it |
| Content.ConsumersSeeWhatWasSent | backend/internal/queue/dequeue.go:126-127 | every claim of a keyless message, at any later time, by anyone, on its topic or as a dead letter, shows the payload, metadata and creation time it was enqueued with |
| Content.KeepsContent | backend/internal/queue/lifecycle.go:131-143 | no step changes the content of a keyless message |
| Content.ArchiveProvenance | backend/internal/queue/lifecycle.go:246-261 | every archive row was written by the ack of its message while the topic was replayable, and holds its content, the time of the ack, and its counters and error, or its delivery's if a group acked it |
| Content.ReplayedCopies | backend/internal/queue/replay.go:55-79 | every message a replay creates is a fresh pending copy of a message of the same topic acked earlier, at or after the start asked for or within the window, as it was then; it expires by the topic's TTL or the global one |
| Content.AckedIsReplayed | backend/internal/queue/replay.go:31-90 | a keyless message acked while its topic was replayable, and not erased since, is copied by every replay of the topic that reaches back to the ack |
| DeadLetters.DeadLetterProvenance | backend/internal/queue/lifecycle.go:127-146 | in every reachable state a row with an original topic t has topic t.dlq, no configuration or archive row is for a .dlq topic, archived rows have no original topic |
| DeadLetters.RoundTrip | backend/internal/queue/lifecycle.go:373-417 | with a global threshold other than 1, if no nack of a dead letter sees a configuration: after one promotion, whatever happens short of a requeue, and a requeue, the message is back on its topic with the same key, payload, metadata, creation and expiry, no retries used, its dead-letter fields cleared and max_retries at the threshold |
| DeadLetters.RequeueOutcome | backend/internal/queue/lifecycle.go:390-405 | a requeue succeeds if and only if the original topic is not empty and the key is not pending there |
| DeadLetterReturn.RestoresIffThresholdNotOne | backend/internal/queue/lifecycle.go:127-146 | in every run, a promotion followed by the next requeue brings the message back as it was, if and only if the global threshold is not 1 |
| DeadLetterReturn.ComesBackShort | backend/internal/queue/lifecycle.go:128-143 | with a threshold of 1, a run, each call seeing the configuration row there is, in which the requeue after a promotion leaves the message on the .dlq topic |
| DeadLetters.OriginLostAtThresholdOne | backend/internal/queue/lifecycle.go:127-160 | with a threshold of 1 a nacked dead letter goes one level deeper, comes back one level only, and then cannot be requeued |
| DeliveryBound.DeliveriesBounded | backend/internal/queue/lifecycle.go:125-165 | with a global threshold other than 1 a keyless message inserted with max_retries R is claimed at most max(1, R) + 1 times and promoted at most once before its next requeue |
| DeliveryBound.CycleDecreases | backend/internal/queue/lifecycle.go:161-175 | a claim followed by a nack strictly lowers the measure of deliveries still to come |
| DeliveryBound.UnboundedAtThresholdOne | backend/internal/queue/lifecycle.go:128-143 | with a threshold of 1 there is, for every k, a run, each call seeing the configuration row there is, that delivers one message k times without a requeue |
| DeliveryBound.BoundedIffThresholdNotOne | backend/internal/queue/lifecycle.go:13-21 | the bound holds of every run if and only if the global threshold is not 1 |
| GroupDeliveryBound.ClaimsAreCounted | backend/internal/queue/lifecycle.go:303-344 | from its creation on, a delivery's retry count, plus one while it is processed, is the number of times its group has claimed the message |
| GroupDeliveryBound.GroupDeliveriesBounded | backend/internal/queue/lifecycle.go:303-335 | a group claims a message at most R times if its delivery has max_retries R, at most T times if its nacks see thresholds from 1 to T, and with neither limit its delivery never fails |
| GroupDeliveryBound.ZeroRetries | backend/internal/queue/lifecycle.go:333-335 | below the threshold, max_retries = 0 fails a plain message on its first nack and a delivery on none |
| RetryLaw.PromotedAtTheLimit | backend/internal/queue/lifecycle.go:120-175 | a message whose nacks see a topic limit, or else the global one, is promoted at the nack whose number is that limit, at no earlier one, and never under a limit of 0; every other nack retries it, and fails it from its max_retries on |
| RetryLaw.FailsByDefaultLimit | backend/internal/queue/enqueue.go:39-54 | a keyless message of a topic that sets no limit, short of any threshold, fails at nack number max(1, default max_retries), not before, and is never nacked after |
| RetryLaw.DeliveryFailsAtTheLimit | backend/internal/queue/lifecycle.go:303-344 | a group's delivery fails at the nack whose number reaches the limit that nack sees, or its own max_retries, and is pending after any other |
| RetryLaw.ShownRetries | backend/internal/queue/dequeue.go:126-141 | short of the limit, a claim shows the number of nacks so far |
| RetryLaw.GroupShownRetries | backend/internal/queue/dequeue.go:213-228 | a group is shown the number of its own nacks |
| Fifo.DequeueTakesOldest | backend/internal/queue/dequeue.go:115-125 | with limits that are not negative and upserts that strand no row, Dequeue, unless throttled, hands out the oldest unexpired pending message of the topic, skipping none |
| Fifo.GroupDequeueTakesOldest | backend/internal/queue/dequeue.go:196-209 | under the same conditions, the same for a group over its pending deliveries, shown with the delivery's counters |
| Fifo.StaysReady | backend/internal/queue/lifecycle.go:161-175 | under the same conditions, every reachable pending row or delivery has no visibility deadline and has retries left or no limit |
| Fifo.UpsertStaysReadyIffGentle | backend/internal/queue/enqueue.go:119-124 | an upsert leaves a ready row ready if and only if its max_retries is 0 or above the retries used |
| Fifo.AlwaysReadyIffGentle | backend/internal/queue/enqueue.go:119-124 | with limits that are not negative, every row and delivery of a run is always ready if and only if no upsert lowers max_retries to or below the retries used |
| Fifo.KeylessIsGentle | backend/internal/queue/enqueue.go:69-70 | a keyless run has no upserts that could strand a row |
| FanOut.DisappearsOnlyWhenLetGo | backend/internal/queue/lifecycle.go:204-270 | in group-only runs a message disappears only if every group that held a delivery for it has acked it or been unregistered |
| FanOut.OnlyTheLastAckDeletes | backend/internal/queue/lifecycle.go:246-261 | in group-only runs a step deletes a message if and only if it is the successful ack of its one remaining delivery |
| FanOut.FailedKeepsAlive | backend/internal/queue/lifecycle.go:303-335 | a failed delivery, and its message, stay until the group is unregistered |
| FanOut.DeliveriesStayLinked | backend/internal/queue/consumer_group.go:44-53 | in every reachable state of any run each delivery refers to a live message |
| FanOut.StoredForEveryGroup | backend/internal/queue/consumer_group.go:44-45 | a newly stored message has a fresh delivery for exactly the registered groups of its topic |
| FanOut.CopiedForEveryGroup | backend/internal/queue/consumer_group.go:44-45 | so has every copy a replay makes |
| FanOut.RegistrationBackfills | backend/internal/queue/consumer_group.go:44-53 | a new group gets a delivery, with the message's max_retries, of exactly the topic's pending messages it has none of |
| FanOut.UnregistrationCleansUp | backend/internal/queue/consumer_group.go:91-98 | unregistering takes exactly the group's deliveries of the topic's messages |
| KeyDedup.StepKeepsKeysUnique | backend/internal/queue/enqueue.go:116-125 | every step keeps at most one pending row per topic and key |
| KeyDedup.KeysStayUnique | backend/internal/queue/enqueue.go:66-70 | every reachable state has at most one pending row per topic and key |
| KeyDedup.UpsertEffect | backend/internal/queue/enqueue.go:115-134 | an accepted enqueue returns the pending holder of the key, replacing its content and max_retries and keeping its creation, retries, expiry and deliveries, or stores a new row with a delivery per registered group; max_retries is the topic's or the default, expiry by the topic's TTL or the global one; every other row, and any row being processed, is untouched |
| KeyDedup.EnqueueRefusals | backend/internal/queue/enqueue.go:71-112 | an enqueue is stored if and only if the topic is not reserved, is registered where that is required, the schema does not object and the queue is below its depth limit; the first that fails is the error, and nothing changes |
| ReapedEnqueue.ReapingChangesEnqueue | backend/internal/queue/enqueue.go:95-127 | an expiry pass changes the reply to an enqueue if and only if the other checks pass and it empties a full queue below its limit, or expires the pending holder of the key |
| ReapedEnqueue.StoredIsClaimableIff | backend/internal/queue/enqueue.go:115-127 | an accepted enqueue can be claimed at once if and only if it is new and not stored expired, or the holder it overwrites is unexpired, under no deadline, and has retries left under the new limit |
| ReapedEnqueue.LapsedHolderBuries | backend/internal/queue/enqueue.go:119-124 | an enqueue over an expired holder stores what cannot be claimed; after an expiry pass it stores a fresh row that can |
| BatchClaim.BatchRefinesSingles | backend/internal/queue/dequeue.go:358-442 | DequeueN(n) equals n Dequeues at that instant - messages handed out, rows and tokens - if and only if the topic is no .dlq topic, or nothing is granted or claimable |
| DeadLetterBatch.BatchMissesDeadLetter | backend/internal/queue/dequeue.go:382-401 | under all settings a run leads to a dead letter that n Dequeues hand out and DequeueN(n) does not |
| BatchClaim.GroupBatchRefinesSingles | backend/internal/queue/dequeue.go:244-352 | DequeueNForGroup(n) equals n DequeueForGroups on any topic |
| BatchClaim.TokensSplit | backend/internal/queue/throttle.go:42-52 | taking 1 and then n tokens at one instant grants and leaves what taking n + 1 does |
| Throughput.ThroughputBound | backend/internal/queue/throttle.go:12-55 | under a limit L all four claim operations together deliver at most L + L * elapsed messages of the topic between two calls |
| Throughput.TokensStayInRange | backend/internal/queue/throttle.go:27-37 | a claim leaves between 0 and L tokens, and a bucket in that range stays in it |
| Throughput.AlwaysInCredit | backend/internal/queue/throttle.go:42-52 | no reachable bucket is overdrawn or refilled in the future |
| Throughput.ClaimsPay | backend/internal/queue/dequeue.go:17-27 | each of the four claim operations hands out at most what its bucket granted, and leaves the bucket as the grant left it, messages found or not |
| Throughput.IdlingRefills | backend/internal/queue/throttle.go:31-35 | after n / L idle seconds a request for n up to L is granted in full |
| ClaimEffects.GrantIs | backend/internal/queue/throttle.go:17-55 | a request is granted as many as the bucket has whole tokens, a new bucket being full, and leaves the rest; no limit, or a limit of 0, grants everything |
| ClaimEffects.DequeueEffect | backend/internal/queue/dequeue.go:89-164 | Dequeue takes, marks and shows the oldest row that waits on the topic, past any deadline, unexpired and with retries left; the deadline is whole seconds from now |
| ClaimEffects.DequeueNEffect | backend/internal/queue/dequeue.go:358-442 | DequeueN does so with as many as granted, and with none on a .dlq topic; n must be 1 to 1000 |
| ClaimEffects.DequeueForGroupEffect | backend/internal/queue/dequeue.go:170-239 | the same for a group over its deliveries, shown with their counters and error |
| ClaimEffects.DequeueNForGroupEffect | backend/internal/queue/dequeue.go:244-352 | the same with as many as granted, on any topic |
| SettlingEffects.AckEffect | backend/internal/queue/lifecycle.go:48-90 | an ack of a message being processed removes it with its deliveries and archives it if its topic is replayable; any other is refused and changes nothing |
| SettlingEffects.NackEffect | backend/internal/queue/lifecycle.go:101-198 | a nack changes only the row it names, if that is being processed; it is refused if another pending row of the topic has the key |
| SettlingEffects.RequeueEffect | backend/internal/queue/lifecycle.go:373-417 | a requeue changes only the row it names; the first of no such row, no original topic, key pending there is the error |
| SettlingEffects.AckForGroupEffect | backend/internal/queue/lifecycle.go:204-270 | a group's ack removes its delivery, and with the last one the message, archived with that delivery's counters |
| SettlingEffects.NackForGroupEffect | backend/internal/queue/lifecycle.go:277-368 | a group's nack changes only its delivery, if that is being processed |
| Upkeep.ExpiryPass | backend/internal/queue/reaper.go:81-99 | marks and counts exactly the pending and processing messages whose expiry has passed |
| Upkeep.ArchivePass | backend/internal/queue/reaper.go:101-109 | deletes and counts exactly the rows of replayable topics acked before their window |
| Upkeep.DeletePass | backend/internal/queue/reaper.go:115-133 | removes and counts exactly the messages marked expired, with their deliveries, and deletes what an archive pass would |
| Upkeep.TopicPurge | backend/internal/queue/purge.go:12-25 | removes and counts exactly the topic's messages in the given statuses, with their deliveries |
| Upkeep.KeyPurge | backend/internal/queue/purge.go:29-38 | removes and counts exactly the topic's messages with the key |
| Upkeep.Trim | backend/internal/queue/replay.go:138-150 | deletes and counts exactly the topic's rows acked before the cut |
| Upkeep.ConfigWritten | backend/internal/queue/topic_config.go:83-109 | writes the topic's row and nothing else; a reserved topic is refused |
| Upkeep.ConfigDeleted | backend/internal/queue/topic_config.go:111-128 | deletes the topic's row and its bucket and nothing else |
| ReplayCounting.ReplayCreates | backend/internal/queue/replay.go:55-79 | a replay creates one message per keyless row in range and one per distinct key in range without a pending message, in whatever order rows are visited; in range are the topic's rows acked since the start asked for, or within the window |
| ReplayCounting.SecondReplayAddsKeyless | backend/internal/queue/replay.go:55-79 | an immediate second replay, in any order, adds exactly the keyless rows again |
| ReplayErasure.ArchivePassesLeaveReplay | backend/internal/queue/reaper.go:101-109 | erasing every archive-reaper pass from a run that keeps the topic's configuration, whatever happens between the passes, leaves what a later replay copies unchanged |
| ReplayCounting.ReapersLeaveReplay | backend/internal/queue/reaper.go:115-133 | any number of archive- and delete-reaper passes right before a replay under the same configuration change nothing it copies |
| ReplayCounting.ReplayRefusals | backend/internal/queue/replay.go:36-46 | a replay is refused if and only if the topic is not replayable or the start predates its window, and then changes nothing |
| ReaperErasure.InvisibleIffVerdictsAgree | backend/internal/queue/reaper.go:81-133 | for keyless messages, erasing every reaper pass from a run leaves the replies to all claims and enqueues unchanged if and only if no depth guard decides otherwise |
| ReaperErasure.ReapersShow | backend/internal/queue/enqueue.go:95-112 | under all settings a run of keyless messages with a depth limit of 1 is answered otherwise without its expiry pass |
| ReaperErasure.ReapersAreInvisible | backend/internal/queue/dequeue.go:115-121 | without depth limits, erasing every reaper pass from a run of keyless messages changes the reply of no claim |
| GroupIndependence.GroupsAreIndependent | backend/internal/queue/lifecycle.go:204-368 | for keyless messages without limits, erasing all calls of all other groups changes no reply to a group's dequeues, acks and nacks |
| ConfigCache.StaleReadsHaveACause | backend/internal/queue/topic_config.go:35-128 | in any run of any number of instances, a configuration read that differs from the database has a writer of that topic that has not published, or a notification queued at the reader |
| ConfigCache.QuietMeansFresh | backend/internal/queue/service.go:111-137 | with no writer under way and the inbox empty, every read equals the row or its absence |
| ConfigCache.ReservedReadsNone | backend/internal/queue/topic_config.go:83-86 | however stale the caches, the configuration read for a .dlq topic is absent |
| ConfigCache.LostMeansStuck | backend/internal/queue/topic_config.go:36-39 | an in-process entry nothing is on its way to clear is what the instance reads until the topic is written again |
| ConfigCache.TiersInOrder | backend/internal/queue/topic_config.go:35-81 | a tier is asked only when those before it have no readable entry, a remembered absence included, and its answer is kept in them |
| CachedRuns.CachesNeverConfigureReserved | backend/internal/queue/topic_config.go:83-86 | when every call reads its configuration through the caches of some instance, no nack on a .dlq topic sees one |
| CachedRuns.RoundTripThroughCaches | backend/internal/queue/lifecycle.go:13-21 | with a global threshold other than 1, the round trip of a dead letter, max_retries included, on any number of instances with whatever their caches hold |
| CachedRuns.DeliveriesBoundedThroughCaches | backend/internal/queue/lifecycle.go:13-21 | with a global threshold other than 1, the bounds on deliveries and promotions, likewise |
| CachedRuns.InformedIsDeployed | backend/internal/queue/topic_config.go:35-81 | every run in which each call sees the configuration row there is is a run through the caches |
| CachedRuns.BoundedThroughCachesIff | backend/internal/queue/lifecycle.go:13-21 | the delivery bound holds of every run through the caches if and only if the global threshold is not 1 |
| CachedRuns.RestoresThroughCachesIff | backend/internal/queue/lifecycle.go:127-146 | a requeue brings the message back in every run through the caches if and only if the global threshold is not 1 |
| SchemaVersions.ResolvesToItsOwnJson | backend/internal/queue/schema.go:232-248 | in any run, deletions included, with notifications late or lost, resolving any row the table or the shared cache ever held gives the compilation of that row's JSON, if rows of one version compile alike |
| SchemaVersions.CallsResolveRight | backend/internal/queue/schema.go:212-230 | ... and so does every validation under way, however long ago it fetched its row |
| SchemaVersions.RightIffVersionsFixCompilation | backend/internal/queue/schema.go:98-131 | for any sequence of registrations and deletions, on any number of processes, every schedule resolves every call right if and only if no version ever stands for two schemas that compile differently |
| SchemaVersions.ReusedVersionMisleads | backend/internal/queue/schema.go:232-240 | when a version comes to stand for another compilation, a call on one process, all its notifications delivered, is given the wrong one |
| SchemaVersions.NoDeletionFixesVersions | backend/internal/queue/schema.go:107-114 | without deletions a version never stands for two schemas |
| SchemaVersions.DeletionRestartsVersions | backend/internal/queue/schema.go:125-131 | a schema, its deletion and another schema are two rows of one version |
| SchemaVersions.TableFollows | backend/internal/queue/schema.go:107-116 | the table holds what the writes so far say, and only JSON that parses |
| SchemaCache.SharedEntryFirst | backend/internal/queue/schema.go:164-197 | the table is asked only when the shared cache has no readable entry, a remembered absence included |
| SchemaCache.AloneValidatesCurrent | backend/internal/queue/schema.go:133-154 | one process making one call at a time checks payloads against exactly the registered schema, deletions included |
| SchemaCache.DeletionBreaksTwo | backend/internal/queue/schema.go:125-131 | with a deletion and two processes, calls one at a time, a row is checked against the compilation of the deleted schema |
| Avro.NullableTakesAnything | backend/internal/queue/schema.go:340-347 | a union with a null branch accepts every value |
| AvroValues.EncodingsAccepted | backend/internal/queue/schema.go:253-349 | the JSON form of every value of a well-formed schema is accepted |
| AvroValues.DocumentsAccepted | backend/internal/queue/schema.go:253-281 | for a record, exactly the objects whose fields are each valid, or absent with a default; null counts as the object without fields; anything for another schema |
| AvroValues.KindsAccepted | backend/internal/queue/schema.go:288-349 | the JSON values each type takes, and so those it refuses |
| AvroValues.IntegersExactly | backend/internal/queue/schema.go:310-317 | of the JSON numbers, the decimal notations of the 64-bit integers, and -0, count as integers |
| AvroValues.LiteralIff | backend/internal/queue/schema.go:310-322 | a quoted number passes if and only if it follows the grammar of JSON numbers |
| AvroExample.ValidIffTakes | backend/internal/queue/schema.go:288-349 | one schema's example is a valid value of another if and only if the two schemas fit together |
| AvroExample.AcceptedIffTakes | ui/src/app/messages/avro-example.ts:20-57 | the example exists, and the validator accepts it if and only if the schema takes its own example |
| AvroExample.AcceptedIfFits | ui/src/app/messages/avro-example.ts:20-57 | the validator accepts the example of a schema that fits and, with at most one record per union, only of such a schema |
| AvroExample.ExamplesAreAccepted | backend/internal/queue/schema.go:253-349 | with records nested at most ten deep and no fixed types, named references or required __proto__ fields, the validator accepts the example for every well-formed schema |
| AvroExample.PromisedFits | ui/src/app/messages/avro-example.ts:20-57 | every schema without fixed types, named references or required __proto__ fields, records nested at most ten deep, fits |
| AvroExample.TenRecordsDeep | ui/src/app/messages/avro-example.ts:21-23 | n nested records: the example is accepted if and only if n is at most 10 |
| AvroExample.ProtoIsLost | ui/src/app/messages/avro-example.ts:48-52 | the example of a record with a required field __proto__ is rejected |
| Semaphore.SlotsAreExact | clients/node/src/consumer.ts:139-159 | in any run activeCount is the number of slots held and at most the limit, messages wait only when all slots are taken, and slots go to messages in arrival order, once each |
| Semaphore.WaitersAreQueued | clients/node/src/consumer.ts:149 | the queue holds exactly the messages without a slot |
| Semaphore.NoWakeUpIsLost | clients/node/src/consumer.ts:144-159 | when no received message can move any more, all are handled if the limit is positive, and all still wait if it is not |
| Semaphore.MovesRunOut | clients/node/src/consumer.ts:194-200 | every step of a received message brings the end of all handling nearer |
| Semaphore.ResolvesAfterHandling | clients/node/src/consumer.ts:166-171 | the stream resolves, uncleanly if and only if it failed first, after every message that arrived before settling is finished with exactly one report: an ack if its handler returned, a nack if it threw |
| Semaphore.ReportsAsHandled | clients/node/src/consumer.ts:207-234 | in any run a message is acked if and only if its handler has returned, and nacked if and only if it has thrown |
| Semaphore.FirstVerdict | clients/node/src/consumer.ts:166-189 | the first of end, failure and abort decides: the exit is unclean if and only if it was a failure |
| Semaphore.NoSecondReport | clients/node/src/consumer.ts:207-235 | a message has one ack or nack attempt from the end of its handler on, and none before |
| Semaphore.AwaitedIffArrivedBefore | clients/node/src/consumer.ts:164-171 | with a positive limit, an unfinished message is finished whenever and however the stream resolves if and only if it arrived before settling |
| Semaphore.ResolvesWithout | clients/node/src/consumer.ts:164-170 | from any state, the stream can resolve while a given message that arrived after settling is unfinished |
| Semaphore.LateMessageIsNotAwaited | clients/node/src/consumer.ts:164-170 | such a run from the start, under any limit |
| DrainStream.Drain.constructor | clients/node/src/consumer.ts:141-142 | the closure starts with no slot taken and nothing waiting |
| DrainStream.Drain.AcquireSlot | clients/node/src/consumer.ts:144-150 | takes a free slot or joins the queue |
| DrainStream.Drain.ReleaseSlot | clients/node/src/consumer.ts:152-159 | hands the slot to the first waiter, or frees it |
| DrainStream.Drain.Settle | clients/node/src/consumer.ts:166-171 | the first call fixes the verdict and the messages waited for, later ones change nothing |
| DrainStream.Drain.OnData | clients/node/src/consumer.ts:191-203 | the arrival step; keeps the slot invariant |
| DrainStream.Drain.OnHandled | clients/node/src/consumer.ts:207-234 | the end of a handler: one ack if it returned, one nack if it threw; keeps the slot invariant |
| DrainStream.Drain.OnReported | clients/node/src/consumer.ts:195-199 | the finally block: the slot is passed on; keeps the slot invariant |
| DrainStream.Drain.OnError | clients/node/src/consumer.ts:180-187 | settles uncleanly unless aborted; keeps the slot invariant |
| DrainStream.Drain.OnAbort | clients/node/src/consumer.ts:173-178 | settles cleanly and marks the signal aborted; keeps the slot invariant |
| DrainStream.Drain.OnEnd | clients/node/src/consumer.ts:189 | settles cleanly; keeps the slot invariant |
| DrainStream.Drain.OnSlot | clients/node/src/consumer.ts:194-196 | a message with a slot goes to its handler; keeps the slot invariant |
| DrainStream.Drain.OnAllSettled | clients/node/src/consumer.ts:170 | resolves with settle's verdict; keeps the slot invariant |
| ServiceObject.Service.GetTopicConfig | backend/internal/queue/topic_config.go:35-81 | the three-tier read: answer and both caches are those of the cluster model, and a second read gives the same |
| ServiceObject.Service.UpsertTopicConfig | backend/internal/queue/topic_config.go:83-109 | is the model's step; the next read on this instance sees the new row, other topics read as before, the change is published; a reserved topic changes nothing |
| ServiceObject.Service.DeleteTopicConfig | backend/internal/queue/topic_config.go:111-128 | is the model's step, bucket included; the next read sees absence, other topics read as before; an unknown topic changes nothing |
| ServiceObject.Service.OnConfigChanged | backend/internal/queue/service.go:119-122 | the next read goes to the shared cache or the database |
| ServiceObject.Service.GetTopicSchemaCached | backend/internal/queue/schema.go:164-197 | answer and shared cache are those of the cluster model |
| ServiceObject.Service.ResolveSchema | backend/internal/queue/schema.go:234-248 | answer and compiled schemas are those of the cluster model |
| ServiceObject.Service.ValidatePayload | backend/internal/queue/schema.go:212-230 | objects exactly to what the cached schema's validator refuses, or to a schema that does not parse; never to a payload that encodes a value of the schema, or without a schema |
| ServiceObject.Service.UpsertTopicSchemaAndNotify | backend/internal/queue/schema.go:98-143 | an invalid schema changes nothing; a valid one gets version 1 or the next one, and payloads are checked against it at once |
| ServiceObject.Service.DeleteTopicSchemaAndNotify | backend/internal/queue/schema.go:125-154 | afterwards every payload is accepted |
| ServiceObject.Service.Enqueue | backend/internal/queue/enqueue.go:71-135 | is the model's step, with what the caches held for configuration and schema; each cache is as one read left it, if the call got that far |
| ServiceObject.Service.Admit | backend/internal/queue/enqueue.go:71-87 | the objection is the first of: reserved topic, unregistered topic, refused payload; each cache is as one read left it, if the checks got that far |
| ServiceObject.Service.Upsert | backend/internal/queue/enqueue.go:116-125 | stores the row with its deliveries, or replaces the content of the one pending holder of its key |
| ServiceObject.Service.ResolveExpiresAt | backend/internal/queue/enqueue.go:14-29 | a topic TTL of 0 means never, another beats the global one |
| ServiceObject.Service.ResolveEnqueueParams | backend/internal/queue/enqueue.go:39-59 | max_retries is the topic's or the default, expiry by the topic's TTL or the global one, depth the topic's or none |
| ServiceObject.Service.ConsumeTokens | backend/internal/queue/throttle.go:17-55 | the bucket is refilled, capped and charged as the model's, and the grant is the model's |
| ServiceObject.Service.ApplyThroughputLimit | backend/internal/queue/dequeue.go:17-27 | no limit, or a limit of 0, grants everything; else the bucket decides |
| ServiceObject.Service.ClaimBatch | backend/internal/queue/dequeue.go:382-401 | claims as many of the eligible rows as granted, none older left out, none on a .dlq topic; sets their status and deadline and nothing else; what they show is what they showed |
| ServiceObject.Service.ClaimForGroup | backend/internal/queue/dequeue.go:268-288 | claims as many of the eligible deliveries as granted, none of an older message left out; sets their status and deadline and nothing else; what the group is shown is unchanged |
| ServiceObject.Service.Fetch | backend/internal/queue/dequeue.go:319-342 | lists each claimed message once, oldest first, with its delivery's counters |
| ServiceObject.Service.Dequeue | backend/internal/queue/dequeue.go:89-164 | is the model's step: the oldest claimable message, and the tokens |
| ServiceObject.Service.DequeueForGroup | backend/internal/queue/dequeue.go:170-239 | is the model's step |
| ServiceObject.Service.DequeueN | backend/internal/queue/dequeue.go:358-442 | leaves the model's database and lists exactly the claimed messages, each once |
| ServiceObject.Service.Returned | backend/internal/queue/dequeue.go:413-432 | lists each claimed message once |
| ServiceObject.Service.DequeueNForGroup | backend/internal/queue/dequeue.go:244-352 | leaves the model's database and lists exactly the claimed messages, each once and oldest first |
| ServiceObject.Service.EffectiveDLQThreshold | backend/internal/queue/lifecycle.go:15-21 | the topic's max_retries as the caches gave it, whatever the global threshold; without one, the global threshold |
| ServiceObject.Service.ArchiveToLog | backend/internal/queue/lifecycle.go:25-46 | adds the row if and only if its topic is replayable |
| ServiceObject.Service.Ack | backend/internal/queue/lifecycle.go:48-90 | is the model's step |
| ServiceObject.Service.Nack | backend/internal/queue/lifecycle.go:101-198 | is the model's step, under the threshold the caches gave for the message's topic |
| ServiceObject.Service.AckForGroup | backend/internal/queue/lifecycle.go:204-270 | is the model's step |
| ServiceObject.Service.NackForGroup | backend/internal/queue/lifecycle.go:277-368 | is the model's step, under the threshold the caches gave for the message's topic |
| ServiceObject.Service.Requeue | backend/internal/queue/lifecycle.go:373-417 | is the model's step, under the threshold the caches gave for the original topic |
| ServiceObject.Service.RegisterConsumerGroup | backend/internal/queue/consumer_group.go:15-64 | is the model's step, backfill included |
| ServiceObject.Service.UnregisterConsumerGroup | backend/internal/queue/consumer_group.go:69-107 | is the model's step, deliveries of the topic's messages included |
| ServiceObject.Service.RunExpiryReaperOnce | backend/internal/queue/reaper.go:81-99 | is the model's step and counts the rows |
| ServiceObject.Service.RunArchiveReaperOnce | backend/internal/queue/reaper.go:159-169 | is the model's step and counts the rows |
| ServiceObject.Service.RunDeleteReaperOnce | backend/internal/queue/reaper.go:115-154 | is the model's step: expired messages and aged archive rows go together |
| ServiceObject.Service.PurgeTopic | backend/internal/queue/purge.go:12-25 | is the model's step and counts the rows |
| ServiceObject.Service.PurgeByKey | backend/internal/queue/purge.go:29-38 | is the model's step and counts the rows |
| ServiceObject.Service.TrimMessageLog | backend/internal/queue/replay.go:138-150 | is the model's step and counts the rows |
| ServiceObject.Service.InsertCopiesOf | backend/internal/queue/replay.go:57-79 | inserts the copies in order, skipping those whose key is pending, and counts them |
| ServiceObject.Service.ReplayTopic | backend/internal/queue/replay.go:31-90 | is the model's step for some visiting order of exactly the rows in range |

## Left out

- Statements inside a call: each call is one atomic step, so the row locks, `SKIP LOCKED`, the advisory locks, the
  depth check's race and two group acks interleaving inside one transaction are not modelled.
- Floating point: tokens and times are reals; the bucket's rounding is not modelled. Integers are unbounded, so the
  database's column widths and the overflow of durations are not.
- Failures of the database, the shared cache and the broadcaster, reconnects, and contexts that are cancelled.
- Configuration writers that fail half-way, and a `GetTopicConfig` whose read and store are split by a writer.
- Cache entries hold values, not their JSON encodings; one that does not decode is `Corrupt`.
- `updated_at`, metrics, logging, list and statistics queries, the registration time of groups, user and grant checks,
  HTTP and gRPC handlers, the cron schedule of the delete reaper.
- The archive is a set of rows, which loses nothing: no identifier is archived twice (`Conservation.ArchivedOnce`).
  Its retention other than by trim and reaper is not part of this model.
- The JSON syntax of payloads and the parsing of Avro schemas: both are function parameters of the service. Error
  schemas, aliases and defaults beyond their presence are not modelled.
- Example schemas whose `type` is itself an object, which the specification does not allow.
- The consumer's reconnect loop, back-off and `consumeBatch`, and the conversion of timestamps.
- Throughput.ThroughputBound: is for a limit that stays the same over the window, and assumes that no limit is negative.
- ReaperErasure.InvisibleIffVerdictsAgree: leaves out runs with replays or keyed messages; for those `ReapedEnqueue` states what one expiry pass changes for one enqueue.
- ReplayErasure.ArchivePassesLeaveReplay: leaves out runs with a replay before the last one, and delete-reaper passes, which can keep an expired message from being acked and so from being archived.
