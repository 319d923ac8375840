# Fraud pipeline: verified model

A Dafny model of the stateful core of a streaming fraud pipeline, with proofs about whole runs of it. An event
is signed over a canonical text, crosses Kafka, is checked by a consumer, appended to an event store,
projected into a per-user read model, scored by rules, and may raise an alert. The modules follow that path:

| part | modules |
|---|---|
| canonical text, signature, Kafka and jsonb transports | `JsStrings`, `JsonValues`, `CanonicalJson`, `Envelopes`, `Wire`, `Transport`, `Delivery`, `Acceptance`, `StoredEvents`, `EndToEnd` |
| optimistic event store and its retries | `AppendProtocol`, `EventRepositories`, `Retry`, `StoredStreams` |
| sliding-window projection and velocity rule | `Projection`, `ProjectionStores`, `RetriedProjection`, `Pipeline` |
| consumer batch engine | `ConsumerBatch` |
| impossible-travel register | `ImpossibleTravel` |
| alert lock | `AlertLock` |
| rule results, scoring and the two decision paths | `Rules`, `Scoring`, `Decisions` |

`dafny verify dfyconfig.toml` checks the whole project.

## How it is modelled

* JavaScript strings are sequences of UTF-16 code units. A JSON value is null, a boolean, a string, an integer
  number, another number (kept as its text), a bigint, an array, or an object with its fields in enumeration
  order. "The same meaning" (`Equiv`) is equality up to key order at every depth and the identification of
  bigint n with the number n. The grammar is that of RFC 8259, sections 2 to 7; the key order is that of
  RFC 8785, section 3.2.3.
* Concurrency is a state machine: a function gives the state after one step, `None` if the step cannot happen,
  and the theorems speak of every list of steps that can happen from the initial state. This covers
  interleaved `append` calls, the key groups of a batch, and the dispatchers of one alert.
* Objects that change in place are classes (`EventRepository`, `ProjectionStore`, `VelocityRule`, `GeospatialRule`,
  `AlertingSubsystem`, `RuleRegistry`), and loops are methods. Each method is proved against a specification
  function, and the laws are proved about that function.
* Parameters stand for what the code cannot see into: an injective, never empty signature (`Ideal`); `BigInt()` and
  the number that `JSON.parse` makes of an integer text (`HostOk`: exact up to 2^53 - 1, never an odd integer beyond); the ip and range checks of
  the schema library; clocks, jitter and the outcomes of calls; a metric for the distance; a monotone rounding for
  `tonumber`; exact reals for scores. `EndToEnd.AssumptionsCanBeMet` gives a signature and a host that satisfy the first two.
* A call that fails may have taken effect before: the projection script, the publication of an alert, SET, DEL and the
  dead-letter send have both outcomes. A failed COMMIT, however, is taken to have rolled back, and only committed rows are visible, as under READ COMMITTED. An
  insert whose key another open transaction holds waits for that transaction.

## Findings

* The three event builders (src/core/domain_models/index.ts:63-76, 92-106 and 123-138) put a `metadata` object into
  the event. The payload schemas (src/events/client/kafka_client/contracts/transaction.schemas.ts:31-71) do not list
  it, so decoding drops it and the signature no longer matches: every such event is rejected by every consumer
  (`Delivery.FactoryEventsNeverAccepted`).
* `createdAtNs` and `timestamp` are nanoseconds, and `load` gets them back as doubles
  (src/store/event_store/postgres_impl/repository.ts:128-151). It raises an integrity error exactly when one of the
  integers is changed by that (`StoredEvents.StoreRoundTrip`). Up to 2^53 - 1 it cannot happen
  (`StoredEvents.SafeEnvelopeLoads`); beyond, it always happens to an odd integer (`EndToEnd.UnsafeOddNeverLoads`), for
  example to creation time 2^53 + 1 (`EndToEnd.LoadFailsAtTwoTo53PlusOne`).
* A transaction that arrives without an envelope is signed by the consumer itself
  (src/events/client/kafka_client/consumer/consumer.ts:113-122), so its verification can never fail, whatever keys
  decoding dropped (`EndToEnd.BareTransactionLoads`).
* The Lua comment says that ZADD adds "strictly as a new element"
  (src/store/projection_store/projection-store.ts:98-99), but a repeated id has its score refreshed. The model
  follows the code. An id that comes back after its entry was trimmed is credited again
  (`Projection.LateRedeliveryCreditsTwice`); for positive amounts the balance is exact if and only if that never
  happens (`Projection.BalanceExactIffNoStaleRepeat`).
* When INCRBY fails, the ZADD before it (src/store/projection_store/projection-store.ts:99-106) keeps its effect, so
  the retries find the id, skip the amount and report success (`ProjectionStores.StoppedIsNeverCredited`).
* A message without a value has its offset resolved at once
  (src/events/client/kafka_client/consumer/consumer.ts:97-100). If resolving an offset passes everything before it, a
  message can be lost when its dead-letter send fails, exactly if it has a value and a later message of the batch
  with another key has none (`ConsumerBatch.LostIffLaterSkip`).
* `evaluate` stores an event before it looks at its coordinates
  (src/rules/registry/dynamic_rules/rules/geospatial/geospatial_rule.ts:65-68, 110-116), so an event without finite
  coordinates makes the evaluations after it throw until the register advances
  (`ImpossibleTravel.FlaggedIff`; a run of two events is `ImpossibleTravel.PlacelessEventFailsTheNext`).
* `dispatchFlag` deletes the lock in its catch block whoever set it
  (src/rules/engine/orchestrator/alerts/alerts.ts:105-109). The same alert can be published twice at one moment if the
  SET call throws, if a metric or log call throws, if a publication reaches the broker but is reported as failed, or if
  a holder outlives its lock; each of the four suffices (`AlertLock.WithoutTheAssumptionsAlertsRepeat`), and
  deduplication holds in all runs with a given set of these faults if and only if the set is empty
  (`AlertLock.DeduplicatedIffNoFault`).
* A call that finds the lock returns normally before the one that holds it has published
  (src/rules/engine/orchestrator/alerts/alerts.ts:76-80). If that one then fails to publish, or its SET took effect but
  threw, no alert goes out although a call has returned normally. `AlertLock.DeliversIffNoLoss` says that nothing else
  can cause this.
* The weights may be negative (src/core/domain_models/dependency_config.ts:37). The weighted mean
  (src/rules/engine/orchestrator/aggregator/aggregator.ts:61-77) stays in [0, 1] for all results, and the final clamp
  does nothing, if and only if no weight is negative (`Scoring.MeanInRangeIffNonNegative`; a concrete mean of 2 is
  `Scoring.NegativeWeightLeavesRange`).
* The two decision paths differ: a failed non-critical rule counts as 0 in `evaluateAll`
  (src/rules/registry/dynamic_rules/registry/rule-registry.ts:147-152) and is left out in `orchestrate`
  (src/rules/engine/orchestrator/core/engine.ts:115-117). `Decisions.EngineFlagsWhatRegistryFlags` says exactly when
  they disagree, in terms of the total, the number of rules that answered and the number of rules.

## Model

| member | source | states |
|---|---|---|
| CanonicalJson.CanonicalizeInjective | src/core/domain_models/messaging/event-envelope.schema.ts:56-90 | Two values have the same canonical text if and only if they are equal up to key order at every depth and bigint/number identification; strings with escapes and lone surrogates, nested arrays and objects included |
| CanonicalJson.ParseCanonical | src/core/domain_models/messaging/event-envelope.schema.ts:56-90 | Parsing canonical text gives an equivalent value (keys sorted, plain integers), and canonicalizing that reproduces the text, at any depth |
| CanonicalJson.CanonicalizeIsPrint | src/core/domain_models/messaging/event-envelope.schema.ts:69-86 | The recursive map, sort and join printer writes the same text as JSON.stringify of the normal form |
| CanonicalJson.ParseStringify | src/events/client/kafka_client/producer/producer.ts:79 | JSON.parse undoes JSON.stringify on every bigint-free value, keys in the same order |
| JsStrings.UnquoteEscape | src/core/domain_models/messaging/event-envelope.schema.ts:82-89 | Reading a quoted string gives back the string and leaves what follows the closing quote, for all code units |
| JsStrings.ShortEscapeTexts | src/core/domain_models/messaging/event-envelope.schema.ts:82-89 | The seven short escapes, written out |
| JsStrings.LongEscapeTexts | src/core/domain_models/messaging/event-envelope.schema.ts:82-89 | Other controls and lone surrogates are escaped in lower-case hexadecimal, and every other unit stays as it is |
| JsStrings.PairTexts | src/core/domain_models/messaging/event-envelope.schema.ts:82-89 | A surrogate pair stays as it is; any other two units are escaped one by one |
| JsStrings.LessIsComesFirst | src/core/domain_models/messaging/event-envelope.schema.ts:75 | The order of `sort()`: one key comes before another exactly when it is a proper prefix of it or has the smaller code unit where they first differ |
| JsonValues.SortFieldsSorted | src/core/domain_models/messaging/event-envelope.schema.ts:75 | Sorting keeps the value under every key and leaves the keys strictly increasing in that order |
| CanonicalJson.PrintedKeysAscend | src/core/domain_models/messaging/event-envelope.schema.ts:75-85 | In the printed text the keys ascend by code units at every depth, said with positions in the key lists |
| CanonicalJson.SampleText | src/core/domain_models/messaging/event-envelope.schema.ts:69-89 | One object with its keys in the wrong order, an array, the three words and a negative bigint, against its text as an ASCII literal |
| JsonValues.EquivIsNormalEquality | src/core/domain_models/messaging/event-envelope.schema.ts:46-55 | Equivalence of well-formed values is equality of their normal forms, so key order never matters |
| Envelopes.SignatureBindsContent | src/core/domain_models/messaging/event-envelope.schema.ts:145-164 | A signature that verifies for one metadata and payload verifies for another if and only if both are equivalent |
| Envelopes.CreatedEnvelopeIs | src/core/domain_models/messaging/event-envelope.schema.ts:108-134 | For every payload, clock value and label: the text that `create` signs, field by field, the version text included |
| Wire.WireRead | src/events/client/kafka_client/producer/producer.ts:79 | What the consumer parses is the produced value with every bigint as its decimal string, nothing else changed |
| Wire.DecodeKeeps | src/events/client/kafka_client/contracts/transaction.schemas.ts:12-90 | Decoding the wire form of a value gives an equivalent value if and only if its leaves have the declared types and no object at any depth has an unlisted key |
| Transport.TransactionSchemaOk | src/events/client/kafka_client/contracts/transaction.schemas.ts:31-71 | The three transaction schemas of the union list no key twice at any depth |
| Delivery.WireRoundTrip | src/events/client/kafka_client/consumer/consumer.ts:102-122 | A produced envelope is accepted if and only if its payload decodes, has the declared leaf types and loses no key; the accepted canonical text is the signed one |
| Acceptance.SchemaAccepts | src/events/client/kafka_client/contracts/transaction.schemas.ts:12-71 | The transaction schema accepts a value, for each of the three types, if and only if its fields meet conditions said of the fields alone: non-empty strings, a currency of 3 units, any numbers as coordinates, an ip that passes, a risk score in range, integers as amount and timestamp |
| Acceptance.ProducedAcceptedIff | src/events/client/kafka_client/consumer/consumer.ts:106-122 | A produced transaction comes out of intake, with the same content, if and only if its fields meet these conditions and it has only the listed keys |
| Acceptance.BareAcceptedIff | src/events/client/kafka_client/consumer/consumer.ts:106-119 | A message in which metadata or payload is missing or false comes out of intake if and only if its fields meet these conditions |
| Acceptance.EnvelopeMustVerify | src/events/client/kafka_client/consumer/consumer.ts:106-122 | Any other message comes out only as what its metadata and payload decode to, under its own signature, and only if that verifies |
| Acceptance.SampleEventAccepted | src/events/client/kafka_client/consumer/consumer.ts:106-122 | An ordinary event with a fractional latitude, produced and delivered, comes out of intake with its content |
| Delivery.TypedPayloadVerifiesIffNoKeyDropped | src/events/client/kafka_client/contracts/transaction.schemas.ts:67-90 | For schema-valid transactions of the declared types, intake succeeds if and only if decoding drops no key anywhere in the payload |
| Delivery.MetadataSurvives | src/core/domain_models/messaging/event-envelope.schema.ts:109-113 | The metadata that `create` builds is decoded from the wire to exactly what was signed |
| Delivery.EventWithMetadataNeverAccepted | src/events/client/kafka_client/contracts/transaction.schemas.ts:67-90 | No produced event with a `metadata` key of its own passes intake, whatever its type and other fields |
| Delivery.FactoryEventsNeverAccepted | src/core/domain_models/index.ts:54-139 | Every event of the three types that the factory builds is rejected at intake, for all field values |
| StoredEvents.Load | src/store/event_store/postgres_impl/repository.ts:116-161 | `load` returns all rows' envelopes in order if every row verifies, otherwise the error of the first row that does not |
| StoredEvents.ColumnRoundTrip | src/store/event_store/postgres_impl/repository.ts:84-94 | A jsonb column comes back equivalent, in whatever key order, if and only if every integer in it survives being read as a double |
| StoredEvents.StoreRoundTrip | src/store/event_store/postgres_impl/repository.ts:128-153 | An appended envelope is returned by `load` if and only if every integer survives and its creation time was not a string; it re-canonicalizes to the signed text |
| StoredEvents.TextTimestampNeverLoads | src/store/event_store/postgres_impl/repository.ts:129-151 | An envelope whose creation time is a string never loads: it is an integrity error, or the conversion fails |
| StoredEvents.SafeEnvelopeLoads | src/store/event_store/postgres_impl/repository.ts:128-153 | With all integers at most 2^53 - 1 in magnitude an envelope made by `create` never raises an integrity error |
| EndToEnd.ProducedEventLoads | src/store/event_store/postgres_impl/repository.ts:71-154 | A produced, accepted and stored event loads if and only if its creation time and every integer of its payload survive being doubles; it then has the text the producer signed |
| EndToEnd.UnsafeOddNeverLoads | src/store/event_store/postgres_impl/repository.ts:128-151 | On every host an event with an odd integer beyond 2^53 as creation time or anywhere in its payload, at any depth, can be stored, and every load of it is an integrity error |
| EndToEnd.OddAmountNeverLoads | src/store/event_store/postgres_impl/repository.ts:128-151 | Once stored, an event with an odd amount beyond 2^53 never loads, on any host |
| EndToEnd.LoadFailsAtTwoTo53PlusOne | src/store/event_store/postgres_impl/repository.ts:149-151 | A concrete envelope whose load is an integrity error |
| EndToEnd.BareTransactionLoads | src/events/client/kafka_client/consumer/consumer.ts:113-127 | A bare transaction that passes the schema always comes out of intake, as what it decodes to under the consumer's own signature; once stored it loads if and only if the consumer's clock and its decoded integers survive being doubles |
| StoredStreams.LoadReturnsFinishedCalls | src/store/event_store/postgres_impl/repository.ts:71-161 | After any run of interleaved appends `load` succeeds if and only if the integers of every event whose append returned success on the aggregate survive being doubles; it then returns one envelope per such call, in commit order, with the signed content |
| AppendProtocol.VersionsAreDense | src/store/event_store/postgres_impl/schema.sql:24 | In every interleaving the committed versions of an aggregate are exactly 1..n in commit order, without gap or duplicate |
| AppendProtocol.StreamsOnlyGrow | src/store/event_store/postgres_impl/repository.ts:120-123 | A later load extends every earlier load as a prefix |
| AppendProtocol.SuccessIsOneRow | src/store/event_store/postgres_impl/repository.ts:77-107 | An append that returned success added exactly one row, to its own aggregate; one that has not added none, whatever was retried |
| AppendProtocol.StreamNamesFinishedCalls | src/store/event_store/postgres_impl/repository.ts:120-123 | In every interleaving a stream names exactly the calls that have returned success on its aggregate, each once |
| AppendProtocol.ConflictsMapToForeignCommits | src/store/event_store/postgres_impl/repository.ts:84-105 | For every call, finished or not, the attempts lost to a version conflict map one-to-one to distinct commits by other calls on that aggregate since this call began |
| AppendProtocol.StartIsStreamLength | src/store/event_store/postgres_impl/repository.ts:71-86 | What counts as "since the call began" is the length of its stream at that moment, in every continuation |
| AppendProtocol.AppendSucceedsWithinItsRetries | src/events/client/kafka_client/consumer/consumer.ts:124-127 | Whatever its errors, a call ends within 12 * (maxRetries + 1) steps; with conflicts only it makes two steps per lost race and at most three more, fails only after maxRetries + 1 foreign commits, and with at most maxRetries foreign commits it has succeeded after 2 * foreign + 3 steps |
| AppendProtocol.UnfinishedAppendCanFinish | src/store/event_store/postgres_impl/repository.ts:71-110 | No deadlock: from every reachable state a call can be brought to its end, with no error but conflicts, in at most 24 * (maxRetries + 1) steps |
| AppendProtocol.BlockedUntilOneCommit | src/store/event_store/postgres_impl/repository.ts:84-96 | In every reachable state an unfinished call can take its next step, or can take it as soon as one certain other call commits |
| AppendProtocol.RunKeeps | src/store/event_store/postgres_impl/repository.ts:71-193 | Every step of every run keeps the invariant: dense versions, one open row per aggregate at most, exact retry counters and histories |
| EventRepositories.EventRepository.Append | src/store/event_store/postgres_impl/repository.ts:71-110 | Alone, `append` adds exactly one row with the next version if and only if one of its first four attempts succeeds and only serialization failures precede it; otherwise the table is unchanged and the error is the last attempt's, a serialization failure exactly when all four were |
| EventRepositories.EventRepository.Select | src/store/event_store/postgres_impl/repository.ts:120-124 | The query returns exactly the aggregate's rows, with versions 1, 2, and so on |
| EventRepositories.AttemptAloneIsAppend | src/store/event_store/postgres_impl/repository.ts:77-96 | In every reachable state an uninterrupted attempt ends with the row that the method adds if and only if no other call has an open row of the aggregate |
| Retry.RetryWithBackoff | src/events/client/kafka_client/consumer/consumer.ts:172-199 | Stops at the first success or after maxRetries + 1 failures, reports the last outcome, and sleeps at most 100 * (2^r - 1) + 49 * r ms over r retries |
| Retry.SleptBound | src/events/client/kafka_client/consumer/consumer.ts:185-187 | r back-offs take between 100 * (2^r - 1) and 100 * (2^r - 1) + 49 * r ms |
| Retry.ExecuteWithRetry | src/store/event_store/postgres_impl/repository.ts:166-193 | The repository's loop moves the protocol's counters exactly as its own error rule does, in at most four attempts, of which all but the last met a serialization failure, with the back-off between them |
| Retry.InnerSleptBound | src/store/event_store/postgres_impl/repository.ts:182 | r of these back-offs take between 100 * (2^r - 1) and 100 * (2^r - 1) + 49 * r ms |
| Retry.AppendWithRetries | src/events/client/kafka_client/consumer/consumer.ts:124-127 | The two nested loops return the outcome of the last database attempt, all before it failed, and there are at most 4 * (m + 1) for m retries; they end as the protocol's flat counters do and sleep in all at most 847 * (m + 1) + 100 * (2^m - 1) + 49 * m ms |
| Retry.ConflictsOnly | src/store/event_store/postgres_impl/repository.ts:178-188 | Without serialization failures the loops fail if and only if the first maxRetries + 1 attempts do, and make no other |
| Retry.SerializationOnly | src/store/event_store/postgres_impl/repository.ts:178-188 | With nothing but serialization failures they make exactly four attempts for every call |
| Projection.WindowMatchesHistory | src/store/projection_store/projection-store.ts:99-109 | After any run the sorted set holds exactly the ids whose latest touch is later than the last call minus the window, each with the time of that touch |
| Projection.CountMatchesHistory | src/store/projection_store/projection-store.ts:155-168 | A count with a window no longer than the kept one equals counting distinct ids over the full log, except ids exactly on the edge of an equal window asked for in the last call's millisecond |
| Projection.BalanceConserved | src/store/projection_store/projection-store.ts:101-106 | The balance is its initial value plus the amounts of exactly those calls whose id was unseen or last seen at or before the window end of the previous call |
| Projection.RepeatNotCredited | src/store/projection_store/projection-store.ts:98-106 | A repeat of an id less than a window later is never credited, whatever ran in between |
| Projection.BalanceIsSumOfDistinct | src/store/projection_store/projection-store.ts:98-111 | With close repeats and one amount per id the balance is the initial value plus the sum over distinct ids |
| Projection.CreditedIsDistinctPlusExcess | src/store/projection_store/projection-store.ts:98-111 | What is credited is the sum over distinct ids plus the amounts of the stale repeats, for every log |
| Projection.BalanceExactIffNoStaleRepeat | src/store/projection_store/projection-store.ts:98-111 | With positive amounts the balance is never below the sum over distinct ids, and equals it if and only if no id came back after its entry was trimmed |
| Projection.LateRedeliveryCreditsTwice | src/store/projection_store/projection-store.ts:98-109 | A run in which a redelivery one window later is credited a second time |
| ProjectionStores.ProjectionStore.ProcessTransaction | src/store/projection_store/projection-store.ts:80-132 | A new id adds exactly its amount to the user's balance and a known one nothing; the id is touched now and what was last touched up to the window start goes; for each way the script can end (it works, does not run, runs unreported, stops at INCRBY) the same or its part is left, and the new balance or the error returned; no other user is touched |
| ProjectionStores.ScriptAfterRun | src/store/projection_store/projection-store.ts:98-111 | After any run of calls one more script changes the balance by the amount of a credited call only and leaves exactly the ids touched inside the window |
| ProjectionStores.StoppedIsNeverCredited | src/store/projection_store/projection-store.ts:98-109 | After a script has stopped at INCRBY no repeat of its id less than a window later adds the amount, whatever ran in between, although it reports success |
| ProjectionStores.ProjectionStore.GetBalance | src/store/projection_store/projection-store.ts:137-150 | The user's balance, 0 when there is none, an error for an empty id |
| ProjectionStores.VelocityRule.Evaluate | src/rules/registry/dynamic_rules/rules/velocity/velocity-rule.ts:75-107 | Suspicious, with score 0.8 and a reason that carries threshold, window and count, if and only if the stored count exceeds the threshold |
| ProjectionStores.VelocityCountsDistinctTransactions | src/rules/registry/dynamic_rules/rules/velocity/velocity-rule.ts:75-107 | The rule flags if and only if more distinct transactions than the threshold were touched since the window opened, by the full log, ids on the trimmed edge not counted |
| ProjectionStores.VelocityRule.ReloadConfig | src/rules/registry/dynamic_rules/rules/velocity/velocity-rule.ts:57-70 | Both fields hold the new configuration |
| RetriedProjection.RetryCreditsAtMostOnce | src/events/client/kafka_client/consumer/consumer.ts:129-137 | If r retries fit into the window, at most the first attempt that took effect is credited, even when it reported failure and other calls lie between |
| Pipeline.StreamIsProjectedPlusLost | src/events/client/kafka_client/consumer/consumer.ts:124-149 | When nothing is under way a user's stream names exactly the projected ids and those lost between append and projection |
| Pipeline.BalanceMatchesStream | src/events/client/kafka_client/consumer/consumer.ts:124-149 | With nothing lost, redelivery inside the window and one amount per id, the balance is the sum of amounts over the distinct ids of the stream |
| ConsumerBatch.KeyGroups | src/events/client/kafka_client/consumer/consumer.ts:86-91 | One group per key that occurs, holding exactly the positions of that key in batch order |
| ConsumerBatch.GroupsPartitionTheBatch | src/events/client/kafka_client/consumer/consumer.ts:86-93 | The groups partition the batch, each in batch order, and two messages share a group if and only if they share a key |
| ConsumerBatch.SameGroupIff | src/events/client/kafka_client/consumer/consumer.ts:88-90 | Two messages are in one group if and only if their keys are equal, where a missing key counts as "anonymous" |
| ConsumerBatch.CompletedBatchIsAccounted | src/events/client/kafka_client/consumer/consumer.ts:93-160 | In a completed batch every message with a value was settled exactly once, as processed or dead-lettered, and every offset was resolved |
| ConsumerBatch.ProcessedWasAppendedAndProjected | src/events/client/kafka_client/consumer/consumer.ts:122-141 | At any moment of any run no effect has occurred twice, a message was projected only after it was appended, and processed only after both, in that order |
| ConsumerBatch.CompletedBatchSaidOfTheLog | src/events/client/kafka_client/consumer/consumer.ts:93-160 | In a completed batch a message with a value was either processed, and then appended and projected, or dead-lettered, not both and not twice; one without a value neither |
| ConsumerBatch.OnlyThrowsAreDeadLettered | src/events/client/kafka_client/consumer/consumer.ts:145-149 | In a run without a throw nothing is dead-lettered |
| ConsumerBatch.ThrownIsNeverProcessed | src/events/client/kafka_client/consumer/consumer.ts:139-149 | A message whose handling has thrown is not processed in any continuation |
| ConsumerBatch.FailureIsFinal | src/events/client/kafka_client/consumer/consumer.ts:151-160 | A run in which a dead-letter send, a heartbeat or the commit failed is never completed, and after one of the first two no offset of a message with a value is ever resolved |
| ConsumerBatch.EffectsAreOrdered | src/events/client/kafka_client/consumer/consumer.ts:94-150 | At any moment of any interleaving no message is settled twice and the effects of one group come in batch order |
| ConsumerBatch.SameKeyInBatchOrder | src/events/client/kafka_client/consumer/consumer.ts:86-152 | With the groups that are built, effects of any two messages with the same key come in batch order |
| ConsumerBatch.OffsetsWaitForAllGroups | src/events/client/kafka_client/consumer/consumer.ts:154-160 | No offset of a message with a value is resolved before all groups have finished, and none while a group has failed |
| ConsumerBatch.RejectionIsFinal | src/events/client/kafka_client/consumer/consumer.ts:201-230 | A group whose dead-letter send failed stays failed in every continuation |
| ConsumerBatch.LostIffLaterSkip | src/events/client/kafka_client/consumer/consumer.ts:94-149 | Some run leaves a message unsettled in a failed group with its offset passed if and only if it has a value and a later message with another key has none |
| ConsumerBatch.BatchCanAlwaysEnd | src/events/client/kafka_client/consumer/consumer.ts:93-160 | From every reachable state the batch can still be completed if and only if no group has failed and the batch is not aborted; otherwise it can be aborted |
| ImpossibleTravel.GeospatialRule.Evaluate | src/rules/registry/dynamic_rules/rules/geospatial/geospatial_rule.ts:43-143 | Updates only the user's register, by the compare-and-set, even when it throws; throws if and only if there is a previous event and one of the two lacks finite coordinates; is suspicious, with score 0.9, if and only if the speed exceeds 900 km/h over a positive time |
| ImpossibleTravel.RegisterHoldsEarliestNewest | src/rules/registry/dynamic_rules/rules/geospatial/geospatial_rule.ts:57-75 | After any arrival order the register holds the earliest arrival among those with maximal rounded timestamp |
| ImpossibleTravel.RegisterIsOrderIndependent | src/rules/registry/dynamic_rules/rules/geospatial/geospatial_rule.ts:57-75 | Two arrival orders leave the same rounded timestamp, and the same event when rounding keeps different events apart |
| ImpossibleTravel.AdvanceIsNewer | src/rules/registry/dynamic_rules/rules/geospatial/geospatial_rule.ts:57-75 | An advancing event is strictly newer, by exact timestamp, than the one it replaces |
| ImpossibleTravel.FlaggedIff | src/rules/registry/dynamic_rules/rules/geospatial/geospatial_rule.ts:104-133 | Over any arrival order an event is flagged if and only if it is strictly newer, by exact timestamp, than the earliest newest event before it and beyond reach of it; it is then, to within rounding, newer than everything before it |
| ImpossibleTravel.PlacelessEventFailsTheNext | src/rules/registry/dynamic_rules/rules/geospatial/geospatial_rule.ts:65-68 | A concrete run of two events in which the first has no finite coordinates and the evaluation of the second fails |
| ImpossibleTravel.OneHourApart | src/rules/registry/dynamic_rules/rules/geospatial/geospatial_rule.ts:131-133 | Two events exactly one hour apart: the second is flagged if and only if they are more than 900 km apart |
| ImpossibleTravel.UnflaggedChainIsSlow | src/rules/registry/dynamic_rules/rules/geospatial/geospatial_rule.ts:118-133 | Along advancing events that are neither flagged nor fail, the distance between any two is within reach of 900 km/h in their elapsed time |
| ImpossibleTravel.TeleportIsFlagged | src/rules/registry/dynamic_rules/rules/geospatial/geospatial_rule.ts:110-133 | If two advancing events are farther apart than that, an advancing event after the first and up to the second was flagged or failed; with finite coordinates throughout, it was flagged |
| AlertLock.AlertsAreDeduplicated | src/rules/engine/orchestrator/alerts/alerts.ts:71-119 | In every interleaving without a fault at most one holder exists, only it deletes the key, and acquisitions of any two publications are at least the TTL apart |
| AlertLock.DeduplicatedIffNoFault | src/rules/engine/orchestrator/alerts/alerts.ts:71-119 | For every set of the four faults: all runs that these faults permit are deduplicated if and only if the set is empty |
| AlertLock.WithoutTheAssumptionsAlertsRepeat | src/rules/engine/orchestrator/alerts/alerts.ts:94-119 | For each fault a run with that fault and no other in which an alert reaches the broker twice at the same moment |
| AlertLock.NoThrowMeansSent | src/rules/engine/orchestrator/alerts/alerts.ts:76-103 | If every call has returned normally, an alert reached the broker, whatever faults occurred |
| AlertLock.DeliversIffNoLoss | src/rules/engine/orchestrator/alerts/alerts.ts:74-119 | Once all calls are over, a normal return means that an alert reached the broker, in all runs with a given set of two losses (a publication that fails without effect, a SET that takes effect and throws), if and only if the set is empty |
| AlertLock.AlertingSubsystem.DispatchFlag | src/rules/engine/orchestrator/alerts/alerts.ts:54-121 | Alone: an alert reaches the broker if and only if the lock was free, SET answered and the publication took effect; the call throws if and only if SET, a log call or, under a free lock, the publication did; a call that throws leaves no lock unless DEL fails, and otherwise the lock found or taken stays; other transactions' locks stay |
| AlertLock.AloneIsDispatch | src/rules/engine/orchestrator/alerts/alerts.ts:71-119 | The uninterrupted run of one dispatcher's steps has the effect on key and publications that the method states, and ends finished or thrown exactly as the method does |
| AlertLock.RetryAfterDispatch | src/rules/engine/orchestrator/alerts/alerts.ts:71-119 | After a failed publication with the lock deleted the next call sends the alert, whenever it comes; after a successful one no call within the TTL does |
| Scoring.Aggregate | src/rules/engine/orchestrator/aggregator/aggregator.ts:48-94 | The loop returns the clamped weighted mean of the clamped scores, always in [0, 1] |
| Scoring.MeanBetweenScores | src/rules/engine/orchestrator/aggregator/aggregator.ts:61-74 | The mean lies between any bounds of the clamped scores, so between the least and the greatest |
| Scoring.SampleMean | src/rules/engine/orchestrator/aggregator/aggregator.ts:61-74 | A listed weight of 3, an unlisted one and a score above 1: the mean is 0.875 |
| Scoring.MeanOfOne | src/rules/engine/orchestrator/aggregator/aggregator.ts:61-74 | The mean of one result is its clamped score, whatever its positive weight |
| Scoring.FinalClampIsIdentity | src/rules/engine/orchestrator/aggregator/aggregator.ts:74-77 | With non-negative weights the final clamp is the identity |
| Scoring.NegativeWeightExceedsOne | src/rules/engine/orchestrator/aggregator/aggregator.ts:65-74 | For every weight map with a negative weight there are results in [0, 1] whose mean exceeds 1 |
| Scoring.MeanInRangeIffNonNegative | src/rules/engine/orchestrator/aggregator/aggregator.ts:61-77 | The mean is in [0, 1], and the final clamp the identity, for all results if and only if no weight is negative |
| Scoring.MeanIsMonotone | src/rules/engine/orchestrator/aggregator/aggregator.ts:61-74 | Raising scores never lowers the mean |
| Scoring.MeanIsOrderIndependent | src/rules/engine/orchestrator/aggregator/aggregator.ts:61-74 | Permuting the results does not change the mean, for any weights |
| Decisions.RuleRegistry.RegisterRule | src/rules/registry/dynamic_rules/registry/rule-registry.ts:52-62 | Adds the id at the end if and only if it is new and the rule can be evaluated; ids stay distinct; otherwise nothing changes |
| Decisions.RuleRegistry.EvaluateAll | src/rules/registry/dynamic_rules/registry/rule-registry.ts:110-180 | Suspicious if and only if a critical rule failed or the mean with failures as 0 reaches the threshold; a critical failure scores 1.0; the results are the rules' own, with a harmless entry that names the error for each failure |
| Decisions.ExecuteRules | src/rules/engine/orchestrator/core/engine.ts:141-178 | Splits settled rules into successful results, in order, and failures; throws if and only if a returned score is outside [0, 1] |
| Decisions.Orchestrate | src/rules/engine/orchestrator/core/engine.ts:85-134 | Flags if and only if a critical rule failed or the weighted mean of the successful results reaches the threshold, with that score and the reasons of the suspicious rules that answered, in registration order |
| Decisions.BothFailClosed | src/rules/engine/orchestrator/core/engine.ts:97-114 | A registered critical rule that failed makes both paths flag, whatever the scores and the threshold; without one the score against the threshold alone decides |
| Decisions.FindingsAreReasons | src/rules/engine/orchestrator/core/engine.ts:188-191 | The findings that reach the alert are the reasons of exactly the rules that answered and were suspicious |
| Decisions.FailureTexts | src/rules/registry/dynamic_rules/registry/rule-registry.ts:128-152 | A rule's own result is passed on, and a failed rule becomes a harmless entry with the text that names it |
| Decisions.SameTotalDifferentDivisor | src/rules/engine/orchestrator/core/engine.ts:97-122 | Under unit weights the two paths divide one total by different counts, so the registry's score never exceeds the engine's, and they agree when no rule failed |
| Decisions.EngineFlagsWhatRegistryFlags | src/rules/registry/dynamic_rules/registry/rule-registry.ts:126-170 | What the registry marks suspicious the engine flags; the engine flags alone if and only if no critical rule failed, some rule answered, and the total reaches the threshold times the answers but not the threshold times the rules, which takes a failed rule; both flag on a critical failure |
| Decisions.EngineAloneFlags | src/rules/engine/orchestrator/core/engine.ts:115-122 | One failed rule beside one scoring 0.8, threshold 0.8: only the engine flags |

## Left out

- `undefined` and `Date` values: both collapse with other values in the printer, so they are outside the value domain.
- Numbers that are not written as integers are opaque texts that round-trip; non-finite numbers, and integers too large for any double, do not occur.
- Well-formedness of text: white space and repeated keys in parsed JSON, and jsonb refusing NUL or lone surrogates.
- Projection.BalanceConserved: speaks of scripts that run to their end, and not of rounding for amounts beyond Lua's exact integers; a failing INCRBY is treated by `ProjectionStores.StoppedIsNeverCredited`.
- ImpossibleTravel.GeospatialRule.Evaluate: a register script, and for the velocity rule a count, that fails outright is an evaluation that throws and is not modelled further; reasons are kept as their branch and numbers, not as text.
- AppendProtocol.AppendSucceedsWithinItsRetries: counts a call's steps; that the database grants each step eventually is not modelled.
- AppendProtocol.RunKeeps: interleaved calls change the events table as a value, one step at a time; `EventRepositories` has the in-place form for one call.
- ConsumerBatch.OffsetsWaitForAllGroups: speaks of messages with a value only; what the early resolution of the others can do is `ConsumerBatch.LostIffLaterSkip`.
- ConsumerBatch.LostIffLaterSkip: takes it from the client library, which is not part of this model, that a resolved offset passes all earlier ones and stays resolved when the batch fails.
- A consumer without a dead-letter producer.
- ConsumerBatch.CompletedBatchIsAccounted: the retries inside one append or projection are single steps here; `Retry` and `RetriedProjection` treat them.
- ImpossibleTravel.TeleportIsFlagged: the Haversine formula is an abstract metric and the speed is an exact real.
- Decisions.RuleRegistry.ReloadAll: the rules' own reloads are not modelled there; `ProjectionStores.VelocityRule.ReloadConfig` has the velocity rule's.
- IEEE rounding of scores, error messages, metrics, logging, configuration parsing, connection pools and actual cryptography.
- The messaging client, dead-letter handler, merchant blacklist and identifier guards: they keep no state that the properties above depend on.
