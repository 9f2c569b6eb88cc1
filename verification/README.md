# RED Bus: a verified model

RED Bus is a message bus over Kafka. Producers write messages to an outbox table; a flusher publishes
the rows and deletes them. The bus reads Kafka for its consumers, sends batches over a stream, stores
failed messages as retries, and commits offsets. Clients deduplicate with an inbox table.

This project models those parts in Dafny and proves what the code relies on. Code that changes state is
modelled by classes and loops with the same branches and error exits; protocols between several
processes are modelled as step relations whose runs are finite sequences of states. Everything the code
does not control (whether a publish is confirmed, whether a failed commit took effect, which rows a
delete affected, what a client answers, where a process crashes, what time it is) is an input or an
arbitrary choice, so the statements hold for all of it.

| file | what it models |
|---|---|
| `OutboxRows.dfy`, `OutboxSteps.dfy`, `OutboxFlusher.dfy` | the Go flush pass: selection, grouping, one transaction per step, the loop |
| `ScalaFlusher.dfy` | the Scala flush pass: a recursion with one autocommitted delete per topic |
| `OutboxReplicas.dfy`, `OutboxOrder.dfy` | several flushers on one table, serialised only by row locks; when the order of topics is kept |
| `OutboxTriggers.dfy` | when passes run: the coalescing channel, and the actor that refines it |
| `Throttle.dfy` | both error throttles |
| `MessageIds.dfy` | message and batch ids, the index of a batch by id |
| `ConsumeStream.dfy`, `ConsumeExchange.dfy` | one stream shared by several writers, and what a writer gets for its batch |
| `ConsumeHandler.dfy` | the client SDK's answer to a batch and the bus's result handler |
| `KafkaConsumer.dfy` | fetch, process, commit, reconnect |
| `Inbox.dfy` | inbox keys, claims, and concurrent deliveries |
| `Backoff.dfy`, `RetryRecords.dfy` | retry delays, and what one failed delivery does to a retry |
| `RetryTable.dfy`, `Repeater.dfy` | the retry table with all its writers, and one iteration of the repeater |
| `ErrorClasses.dfy`, `RetryStats.dfy` | failure statistics against a recount of the table |
| `RetryStore.dfy`, `Delivery.dfy` | the retry table as the bus runs on it, and what becomes of a message from Kafka to its end |
| `ConsumerGauge.dfy` | the gauge of active consumers and a consumer's connected state |

Where a guarantee stops, the failing input and the exact condition are stated as lemmas too:

- An answer that omits a message is accepted and loses it: `ConsumeHandler.OmittingAnswerIsAccepted`;
  exactly the named messages are handled (`HandledIffNamed`).
- A reader kept after a failed batch commits past it: `KafkaConsumer.SkippedReconnectLoses`; one commit is
  safe exactly when the reader has passed no message since the committed offset (`KeptReaderIsSafeIff`), and
  all runs are exactly when no partition has two messages (`NeverReconnectingIsSafeIff`).
- An ok result under a foreign message id deletes a retry: `RetryTable.ForeignAnswerLosesRow`; the SDK's
  answers are under the message's own id (`Repeater.RowsAreConservedBySdk`).
- Only-once mode can commit an effect twice: `Inbox.LenientCanRepeat`; at most once holds exactly when
  deliveries do not overlap, every mark is written and none crashes before its mark (`AtMostOnceIff`).
- Inbox key spaces overlap exactly when one key prefix extends the other: `Inbox.KeySpacesCollideIffPrefix`.
  A collision skips a message (`OverlappingConsumersSkip`); names without the separator cannot collide
  (`PlainKeysAreInjective`).
- Two repeaters can lose a failure: `RetryTable.TwoRepeatersLoseAFailure`; attempts count failures exactly
  with at most one repeater (`AttemptsCountFailuresIff`).
- A row that becomes visible after a later row of its topic lets two flushers hold one topic:
  `OutboxOrder.LateRowRun`; every run publishes a topic in id order exactly when the rows of that topic
  become visible in id order, whatever happens in other topics (`OrderKeptIff`).

One comment disagrees with the code: api/scala/redbus/src/main/scala/sergiusd/redbus/producer/Flusher.scala:27-30
says that a failed topic keeps its rows. Each delete commits by itself, so a delete that took effect and
then reported a failure is not undone (`ScalaFlusher.FailedTopicCanLoseRows`). A failed topic keeps its rows
exactly when the bus refused its batch or the delete removed nothing (`FailedTopicKeepsRowsIff`). The rows
removed were confirmed by the bus before, so nothing is lost (`BatchKeeps`).

## Model

| member | source | states |
|---|---|---|
| OutboxRows.GroupByTopic | api/golang/outbox/flusher.go:251-264 | the groups of a selection: every selected row is in the group of its topic, each group holds all its topic's rows in order, groups have distinct topics and come in the order of their first row |
| OutboxRows.SelectionIsHead | api/golang/outbox/flusher.go:405-443 | a fetch selects at most the limit of rows, in id order, none of a failed topic, and leaves out only rows with higher ids, and those only when the limit is reached |
| OutboxRows.SelectionIsPrefix | api/golang/outbox/flusher.go:405-443 | the head of the queue outside the failed topics takes, of each topic, a prefix of that topic's queue |
| OutboxRows.ArrivalsKeepRows | api/golang/outbox/flusher.go:417-443 | whenever rows become visible, no row is lost or repeated and no id is used twice |
| OutboxRows.ArrivalsKeepQueue | api/golang/outbox/flusher.go:417-443 | when the rows of a topic become visible in id order, arrivals before a fetch leave its queue as it is, whatever order the rows of other topics arrive in |
| OutboxSteps.CountedDeleteIsExact | api/golang/outbox/flusher.go:312-323 | a delete that reports as many rows as were requested deleted exactly the requested ones |
| OutboxSteps.DeletedIsPublishedPrefix | api/golang/outbox/flusher.go:279-327 | deleting the published ids removes of each topic exactly the published prefix, in order |
| OutboxSteps.StepKeepsRows | api/golang/outbox/flusher.go:279-327 | one transaction keeps the rows, published and queued together, each as often as before, whenever they became visible |
| OutboxSteps.StepConserves | api/golang/outbox/flusher.go:279-327 | when the rows of a topic become visible in id order, one transaction keeps what was published of it followed by what is queued, whatever happens in other topics; one that did not take effect moves nothing |
| OutboxSteps.StepIsSent | api/golang/outbox/flusher.go:330-345 | every row of a confirmed group is carried by a confirmed request for its topic: the stored bytes, key, idempotency key and timestamp, each empty if absent, and the stored version, the row id if it is absent or zero |
| OutboxSteps.StepMakesProgress | api/golang/outbox/flusher.go:221-242 | after a step that published something, fewer inserts are to come or strictly fewer rows can still be selected |
| OutboxSteps.FailuresExtend | api/golang/outbox/flusher.go:224-242 | the failed topics of a pass stay distinct and a refused request stays its topic's last |
| OutboxFlusher.Flusher.PublishGroup | api/golang/outbox/flusher.go:330-355 | one request for the topic; message i carries the bytes of row i, its stored key, idempotency key and timestamp, empty if absent, and its version, or the row id if that is absent or zero; the ids are returned only if the bus confirmed |
| OutboxFlusher.Flusher.PublishGroups | api/golang/outbox/flusher.go:299-307 | one request per group; the published ids are exactly those of confirmed requests, the failures exactly the topics of refused ones |
| OutboxFlusher.Flusher.Complete | api/golang/outbox/flusher.go:308-327 | a step deletes exactly the published rows or, on any error before the commit, nothing; a commit error leaves open which |
| OutboxFlusher.Flusher.RunTransaction | api/golang/outbox/flusher.go:279-327 | a transaction is a step of the queue, its failures are the refused topics, and success means it took effect |
| OutboxFlusher.Flusher.FlushBatch | api/golang/outbox/flusher.go:279-327 | as above, keeping the rows published and queued together, and for every topic whose own rows become visible in id order what was durably published followed by what is queued |
| OutboxFlusher.Flusher.Flush | api/golang/outbox/flusher.go:224-242 | a pass ends; whenever rows become visible, each is durably published or still queued, once, and in order for every topic whose own rows become visible in order; its failures are distinct topics whose single refused request is their last; all transactions but the last took effect, and after an error the last may not have; without an error the last fetch found nothing and, with a positive batch size, every row left belongs to a failed topic, none if no topic failed; every row durably published was carried, with its stored bytes and options, by a confirmed request for its topic |
| OutboxFlusher.HistoryIsPrefix | api/golang/outbox/flusher.go:71-99 | for a topic whose rows became visible in id order the durably published rows are the front of its queue in id order and the rows left are exactly the rest |
| ScalaFlusher.DeleteTakesHead | api/scala/redbus/src/main/scala/sergiusd/redbus/producer/Flusher.scala:131-153 | deleting a topic's batch by its ids takes exactly the head of the topic's queue |
| ScalaFlusher.BatchKeeps | api/scala/redbus/src/main/scala/sergiusd/redbus/producer/Flusher.scala:131-153 | a confirmed batch of which any part was deleted loses no row and publishes none twice; every topic whose own rows become visible in id order stays published from the front in order, and stays exact unless it is the batch's and only part of it was deleted |
| ScalaFlusher.FailedTopicKeepsRowsIff | api/scala/redbus/src/main/scala/sergiusd/redbus/producer/Flusher.scala:131-153 | after any outcome of a batch its topic has its rows as before if and only if the bus refused the batch or the delete removed nothing |
| ScalaFlusher.FailedTopicCanLoseRows | api/scala/redbus/src/main/scala/sergiusd/redbus/producer/Flusher.scala:27-30 | a delete that took effect and reported a failure leaves a failed topic without its row |
| ScalaFlusher.ClientsSendTheSameIff | api/scala/redbus/src/main/scala/sergiusd/redbus/producer/Flusher.scala:131-153 | the messages the two clients send for a row are equal unless its version is an explicit zero |
| ScalaFlusher.FlusherPass.FlushBatch | api/scala/redbus/src/main/scala/sergiusd/redbus/producer/Flusher.scala:131-153 | one request; message i carries the bytes and stored options of row i, empty if absent, the row id standing in for a missing version only; success means the whole batch was deleted; a topic that failed keeps its rows if and only if the batch was refused or the delete removed nothing; the pass invariant holds with a failed topic excluded |
| ScalaFlusher.FlusherPass.FlushGroups | api/scala/redbus/src/main/scala/sergiusd/redbus/producer/Flusher.scala:116-127 | a failed topic does not stop the others, and each selected topic lost its first row or is excluded |
| ScalaFlusher.FlusherPass.ProcessMessages | api/scala/redbus/src/main/scala/sergiusd/redbus/producer/Flusher.scala:110-129 | the recursion ends, keeps the invariant, and when no fetch broke leaves only rows of failed topics, none if no topic failed; every published row was carried, with its stored bytes and options, by a confirmed request for its topic |
| OutboxOrder.TopicsNeverShared | api/golang/outbox/flusher.go:401-443 | when the rows of a topic become visible in id order, two transactions of any number of flushers never both hold rows of it, whatever happens in other topics |
| OutboxOrder.DurablePublishesInOrder | api/golang/outbox/flusher.go:279-327 | under the same condition on the topic alone its committed publishes are in ascending id order across all flushers |
| OutboxOrder.OrderKeptIff | api/golang/README.md:150-151 | for each topic and any number of flushers, every run in which rows become visible in a given order publishes the topic in id order if and only if that order has the rows of this topic in id order |
| OutboxOrder.AllOrdersKeptIff | api/golang/README.md:150-151 | the order of all topics is kept if and only if each topic's rows become visible in id order |
| OutboxOrder.LateRowRun | api/golang/README.md:150-151 | a run in which a late row with a lower id lets two open transactions hold one topic |
| OutboxReplicas.NoRowTwice | api/golang/outbox/flusher.go:279-327 | in every run of any number of flushers, whenever rows become visible, no row is published twice by committed transactions |
| OutboxReplicas.QueuedOrPublished | api/golang/outbox/flusher.go:279-327 | whenever it became visible, an inserted row has left the table if and only if a committed transaction published it |
| OutboxReplicas.NoDeadlock | api/golang/outbox/flusher.go:401-443 | while a transaction is open, some transaction can take a step |
| OutboxTriggers.NoTriggerLost | api/golang/outbox/flusher.go:132-201 | every trigger is still remembered or a pass started after it |
| OutboxTriggers.IdleMeansDrained | api/golang/outbox/flusher.go:132-201 | idle without a token after a clean pass, only rows inserted after every trigger so far are queued |
| OutboxTriggers.FlusherActor.Receive | api/scala/redbus/src/main/scala/sergiusd/redbus/producer/Flusher.scala:76-102 | the actor's two flags follow its transition function and a pass is started exactly when that says so |
| OutboxTriggers.OnePassAtATime | api/scala/redbus/src/main/scala/sergiusd/redbus/producer/Flusher.scala:76-102 | with messages queued in a mailbox, at most one pass runs and the flag says whether one runs or has just finished |
| OutboxTriggers.ActorRefinesChannel | api/scala/redbus/src/main/scala/sergiusd/redbus/producer/Flusher.scala:76-102 | every message the actor handles is a sequence of enabled channel steps, and a pass starts exactly when the channel starts one |
| OutboxTriggers.ActorRunsAreChannelRuns | api/scala/redbus/src/main/scala/sergiusd/redbus/producer/Flusher.scala:76-102 | every run of the actor with its mailbox and its passes is a run of the channel |
| OutboxTriggers.SentTriggersAreKept | api/scala/redbus/src/main/scala/sergiusd/redbus/producer/Flusher.scala:76-102 | in every run each trigger sent is still in the mailbox, or pending, or a pass started at or after it |
| OutboxTriggers.TriggerIsNotForgotten | api/scala/redbus/src/main/scala/sergiusd/redbus/producer/Flusher.scala:76-102 | as long as no pass has started since a trigger was sent, a pass runs or a message waits, and an idle actor has nothing pending |
| OutboxTriggers.ActorIdleMeansDrained | api/scala/redbus/src/main/scala/sergiusd/redbus/producer/Flusher.scala:76-102 | idle with an empty mailbox after a clean pass, only rows inserted after every trigger sent are queued |
| Throttle.ErrorThrottle.Report | api/golang/outbox/throttle.go:29-46 | one call changes only its key's entry and emits as specified |
| Throttle.ScalaErrorThrottle.Report | api/scala/redbus/src/main/scala/sergiusd/redbus/producer/Flusher.scala:180-200 | the two maps of the Scala throttle represent the same entries and emit the same reports |
| Throttle.EveryReportCounted | api/golang/outbox/throttle.go:29-46 | for each key, reports let through plus counts handed out plus the pending count equal the calls |
| Throttle.LastIsRemembered | api/golang/outbox/throttle.go:29-46 | a key's entry holds the clock of its last report let through, and is absent before the first |
| Throttle.ReportsSpaced | api/golang/outbox/throttle.go:29-46 | consecutive reports let through for a key are at least the interval apart, for any clock |
| Throttle.LetThroughIff | api/golang/outbox/throttle.go:29-46 | a report is let through if and only if none of its key was before or the last one that was is at least the interval ago |
| Throttle.EmittedCount | api/golang/outbox/throttle.go:29-46 | the count a report carries is the number of calls for its key since the one let through before |
| MessageIds.ParseInvertsPrint | internal/pkg/kafka/consumer/consumer.go:295-314 | namespace, partition and offset can be read back from a message id, with any namespace |
| MessageIds.IdsAreInjective | internal/pkg/kafka/consumer/consumer.go:295-314 | distinct positions print distinct ids |
| MessageIds.IndexByID | internal/app/model/message.go:42-48 | the index holds exactly the ids of the batch, each with the last message that has it |
| MessageIds.DistinctPositionsDistinctIds | internal/app/model/message.go:42-48 | messages fetched from distinct positions have distinct ids, so the index loses none |
| MessageIds.BatchIdsAreInjective | internal/pkg/stream/stream.go:18-22 | batch ids are never empty and never repeat while the counter grows |
| ConsumeStream.AwaitResult | internal/pkg/stream/stream.go:103-130 | the wait ends with the first answer of this batch or without a batch id, discards foreign ones, and reports a broken, closed or timed out stream |
| ConsumeStream.WaitIsDetermined | internal/pkg/stream/stream.go:103-130 | the events to be received determine how far a wait reads and what it returns |
| ConsumeStream.WaitMeans | internal/pkg/stream/stream.go:103-130 | a wait reads results with another non-empty batch id, and then one with this batch's id or none, which it returns, or the end of the stream |
| ConsumeStream.OneOutstanding | internal/pkg/stream/stream.go:84-131 | however many writers share a stream, at most one batch is outstanding |
| ConsumeStream.AcceptedAnswersMatch | internal/pkg/stream/stream.go:84-131 | an accepted result reports the outstanding batch: for a client that echoes batch ids whatever late or repeated answers it sends, and for an old client that answers each batch once |
| ConsumeStream.RecvAcceptsIffOwn | internal/pkg/stream/stream.go:103-130 | in every reachable state the next answer is taken for the outstanding batch if and only if it reports that batch |
| ConsumeExchange.AcceptedAnswerIsForBatch | internal/pkg/stream/stream.go:84-131 | with a client built on the SDK, in every run of a shared stream, an answer accepted for a batch was given for it: one result for each message, which says what the client's handler returned when called with that message |
| ConsumeExchange.Connection.Await | internal/pkg/stream/stream.go:103-130 | in a run of the shared stream, the wait returns what the events it read determine: foreign answers are discarded and the first other event decides; the lock is free afterwards |
| ConsumeExchange.Connection.Exchange | internal/pkg/stream/stream.go:84-131 | a writer takes the lock, sends exactly its batch, discards foreign answers, and what it accepts reports what the client's handler returned for each of its messages; it sends nothing only if the lock is taken or the stream is down; the lock is free again however the wait ends |
| ConsumeHandler.ProcessMessageList | api/golang/consumer/consumer.go:223-244 | concurrent processing yields one result per message, in some order |
| ConsumeHandler.ToPBResultList | api/golang/consumer/convert.go:65-98 | one result per processed message, in order: ok exactly if there was no error, retryLater exactly for a postponement, with the error's text and its delay |
| ConsumeHandler.DurationSeconds | api/golang/consumer/convert.go:89-98 | a positive delay is rounded up to whole seconds and clipped to 32 bits, any other is zero |
| ConsumeHandler.AnswerBatch | api/golang/consumer/consumer.go:183-221 | the SDK's answer has exactly one result per message: ok exactly if the handler returned no error for it, retryLater exactly if it asked for that, with the error's text |
| ConsumeHandler.SdkAnswersEveryMessage | api/golang/consumer/consumer.go:223-244 | every message of the batch is named by exactly one result, which says what its handler returned |
| ConsumeHandler.Handler.ApplyResults | internal/app/grpcapi/consume.go:91-146 | results take effect in order, those for other ids are skipped; it stops exactly at the first result for the batch, not ok, whose repeat cannot be stored, with the earlier ones applied |
| ConsumeHandler.Handler.Handle | internal/app/grpcapi/consume.go:78-147 | an accepted answer is no error if and only if it names a message of the batch or the batch is empty, otherwise it is a desynchronized stream; the new ok ids are exactly those some result says ok for, and the new repeats exactly those the other results ask for, each with its message's content and the result's error, flag and delay; when a repeat cannot be stored, exactly the results before it took effect; a broken or closed stream changes nothing; every repeat is in the retry table under the subscriber's topic, group and consumer |
| ConsumeHandler.AppliedIsHandledAs | internal/app/grpcapi/consume.go:91-141 | applying results in order marks exactly the ids of the batch they say ok for, and stores exactly the repeats the others ask for, field by field |
| ConsumeHandler.NamedIsHandled | internal/app/grpcapi/consume.go:91-141 | a message that a result names is done or stored |
| ConsumeHandler.UnnamedIsUntouched | internal/app/grpcapi/consume.go:91-146 | a message no result names is neither done nor stored |
| ConsumeHandler.HandledIffNamed | internal/app/grpcapi/consume.go:91-146 | a batch is handled as a whole if and only if the client names every message of it |
| ConsumeHandler.SdkBatchIsHandled | api/golang/consumer/consumer.go:223-244 | the SDK and the handler together mark a message as done exactly if the client's handler returned no error for it, and otherwise store it with that error, flag and delay |
| ConsumeHandler.OmittedMessageIsDropped | internal/app/grpcapi/consume.go:143-146 | an answer that names one message of its batch, so that it is accepted, and leaves the other neither done nor stored |
| ConsumeHandler.AcceptPartial | internal/app/grpcapi/consume.go:143-146 | an answer that names some message is not refused for those it leaves out, it fails only if a repeat it asks for cannot be stored, and every message it leaves out stays unhandled |
| ConsumeHandler.OmittingAnswerIsAccepted | internal/app/grpcapi/consume.go:143-146 | at that answer the handler returns no error and the omitted message is unhandled |
| KafkaConsumer.ToMessageList | internal/pkg/kafka/consumer/consumer.go:295-314 | one message per fetched record, in order, under the id of its position, with the record's key, value and headers |
| KafkaConsumer.Consumer.FetchBatch | internal/pkg/kafka/consumer/consumer.go:203-258 | the batch holds, of each partition, exactly the records between the committed offset and the new reader position, in order, and at most a batch size of them |
| KafkaConsumer.Consumer.SetOffset | internal/pkg/kafka/consumer/consumer.go:144-159 | the offset shown for each partition of a committed batch is the one after its last message, others stay, and none passes the committed one |
| KafkaConsumer.Consumer.ProcessAndCommit | internal/pkg/kafka/consumer/consumer.go:260-288 | the error says what came of the exchange: a broken or closed stream, a repeat that could not be stored, or a failed commit; a batch is committed only after every message of it was handled; after any outcome every offset below a committed one is handled, and only what the client's handler returned counts |
| KafkaConsumer.BatchIsReal | internal/app/grpcapi/consume.go:91-141 | handling any prefix of the client's answer marks an id as done only if the client's handler was called with the record's content and returned no error, and stores a repeat only with the error it returned |
| KafkaConsumer.CommitKeepsNoLoss | internal/pkg/kafka/consumer/consumer.go:260-288 | committing any part of a handled batch that was read from the committed offset leaves no unhandled offset below it |
| KafkaConsumer.FullCommitInStep | internal/pkg/kafka/consumer/consumer.go:260-288 | a complete commit brings the broker back in step with the reader |
| KafkaConsumer.AnsweredBatchIsHandled | internal/app/grpcapi/consume.go:91-146 | a fetched batch that an SDK client answers is handled as a whole |
| KafkaConsumer.Consumer.Consume | internal/pkg/kafka/consumer/consumer.go:203-258 | reading until an error, or until it is cancelled in a given round, keeps every offset below the committed one handled, and the broker is past every message of the rounds before |
| KafkaConsumer.Consumer.Reconnect | internal/pkg/kafka/consumer/consumer.go:76-94 | a new reader starts at the committed offset |
| KafkaConsumer.Consumer.ConsumeLoop | internal/app/service/databus/consume.go:117-176 | in every run of reads, results, commits and reconnects each offset below a committed one was handled as the client's handler returned, committed offsets only advance, only a handler error ends it early, and otherwise a reader was cancelled in its round or every attempt reconnected |
| KafkaConsumer.KeptReaderIsSafeIff | internal/app/service/databus/consume.go:147-159 | committing the batch of a reader that went on from its position is safe for all handled messages if and only if it passed no message since the committed offset in a partition where it read on |
| KafkaConsumer.SkippedReconnectLoses | internal/app/service/databus/consume.go:147-159 | in every log with two messages in a partition: a run in which the batch with the first fails, the kept reader goes on, the next is answered and committed, and the first is lost |
| KafkaConsumer.NeverReconnectingIsSafeIff | internal/app/service/databus/consume.go:147-159 | a reader that is never replaced loses nothing in any run if and only if no partition has two messages |
| Delivery.ConsumeAndRepeat | internal/app/service/databus/consume.go:117-176 | with the consumer, the stream, the repeaters and the operators at work, for every record below a committed offset the client's handler was called with its id, key, value and headers and returned no error, or it returned an error and a row with that content, error, flag and start was stored for the consumer's topic and group, and is still there for it or left by an ok answer or the purge of its class |
| Delivery.RepeatIsDelivered | internal/app/grpcapi/consume.go:91-141 | every record that the handler stored is accounted for in this sense at every later moment |
| Delivery.StoredRowIsSelected | internal/app/repository/repeater.go:103-126 | once the row of a failed record is due and the topic and group it was stored for are connected, an iteration selects it |
| Delivery.AnsweredUnderOwnId | internal/app/service/repeater/repeater.go:191-201 | with SDK clients, a record whose row was answered ok was answered under its own id, after the client's handler returned no error |
| Inbox.KeysOfOneConsumerAreInjective | api/golang/inbox/inbox.go:57-59 | within one group and topic distinct idempotency keys give distinct keys |
| Inbox.KeySpacesCollideIffPrefix | api/golang/inbox/inbox.go:57-59 | two consumers can produce one key if and only if one key prefix is a prefix of the other |
| Inbox.PlainKeysAreInjective | api/golang/inbox/inbox.go:57-59 | consumers whose group and topic names do not contain the separator have equal keys only for equal names and equal idempotency keys |
| Inbox.OverlappingConsumersSkip | api/golang/inbox/inbox.go:57-59 | for every two consumers with overlapping key spaces there is a run in which the second one's message counts as processed by the first one's |
| Inbox.InboxClient.Claim | api/golang/inbox/inbox.go:72-82 | a claim inserts its key or reports that it is taken |
| Inbox.InboxClient.Guard | api/golang/inbox/inbox.go:112-120 | the function runs exactly if there is no claim or this call inserted its key, and what fails is the claim or, if it runs, the function |
| Inbox.InboxClient.ProcessWithInbox | api/golang/consumer/inbox.go:30-66 | exactly when a delivery succeeds, given which operations fail; the effect is added exactly by a success on an unmarked key, the mark by a success in transactional mode or if its separate write succeeds, and a failed delivery leaves no trace |
| Inbox.SuccessMeansEffect | api/golang/consumer/inbox.go:30-66 | in every interleaving a delivery that reports success has its effect committed |
| Inbox.AtMostOneEffect | api/golang/inbox/inbox.go:72-120 | in transactional mode, whatever runs concurrently and crashes anywhere, the effect of a key is committed at most once |
| Inbox.TransactionalCommitsOnce | api/golang/inbox/inbox.go:72-120 | a transactional delivery can run to success with the effect committed exactly once |
| Inbox.AtMostOnceIff | api/golang/consumer/inbox.go:30-66 | in both modes together, the effect of a key is committed at most once in every run if and only if deliveries of the key do not overlap, every mark is written, and no delivery crashes before its mark |
| Inbox.LenientCanRepeat | api/golang/inbox/inbox.go:15-24 | with any one of the three allowed, a run commits the effect twice |
| Backoff.ProgressiveDelay | internal/app/model/repeat_strategy_progressive.go:25-35 | the loop computes the interval times the truncated sum 1 + m + ... + m^(k-1), m at least one |
| Backoff.GetNextStartedAt | internal/app/model/repeat_strategy.go:45-58 | the next start is now plus the strategy's delay at the attempt |
| Backoff.DelayLaws | internal/app/model/repeat_strategy.go:45-58 | the even strategy waits its interval; the progressive one its interval times the truncated sum for the multiplier as it is if that is at least one, and otherwise the interval times the attempt |
| Backoff.PowerSumClosedForm | internal/app/model/repeat_strategy_progressive.go:25-35 | (m - 1) times the sum equals m^k - 1 |
| Backoff.AtLeastLinear | internal/app/model/repeat_strategy_progressive.go:25-35 | the k-th attempt waits at least k intervals before truncation |
| Backoff.DelaysNeverDecrease | internal/app/model/repeat_strategy.go:45-58 | a later attempt never waits less, after truncation too, in either strategy |
| Backoff.ProgressiveWaitsLonger | internal/app/model/repeat_strategy_progressive.go:25-35 | the k-th progressive attempt waits at least k whole intervals |
| RetryRecords.Repeat.SetZeroAttempt | internal/app/model/repeat.go:52-59 | the attempt is reset and the start is taken from the record's own strategy, or the default one |
| RetryRecords.Repeat.ApplyNextAttempt | internal/app/model/repeat.go:62-75 | an ordinary failure in place: finished when the budget is spent, otherwise one more attempt and a new start |
| RetryRecords.Repeat.ApplyFailure | internal/app/model/repeat.go:80-96 | a postponement or an ordinary failure in place, with the consumer's own delay if the record is unfinished |
| RetryRecords.FailureChanges | internal/app/model/repeat.go:62-96 | what one failed delivery changes, column by column: flag, attempt, finishing time, and the start, which is now plus the consumer's own delay or else the delay of the next attempt |
| RetryRecords.ExhaustedExactly | internal/app/model/repeat.go:62-96 | a fresh record is finished by exactly its budget plus one ordinary failures, whatever postponements come between; until then its attempt counts them |
| RetryRecords.ChainWaitsLonger | internal/app/model/repeat.go:62-96 | of any two failures or postponements in a chain that carry no delay of the consumer's own, the later one never waits less, whatever comes in between |
| RetryTable.EffectChanges | internal/app/service/repeater/repeater.go:182-201 | what each reply does to a row: left, deleted, or its five columns written, the error text included |
| RetryTable.PersistKeepsRows | internal/app/repository/repeater.go:136-143 | writing back any stale unfinished copy keeps a postponed row pending and no budget overspent |
| RetryTable.CountsPartition | internal/app/repository/repeater.go:17-21 | with any number of repeaters, all = failed + deferred + pending, the deferred count is the number of flagged rows, and attempts stay within their budget |
| RetryTable.AttemptsCountFailures | internal/app/service/repeater/repeater.go:149-213 | with at most one repeater an unfinished row's attempt is the number of ordinary failures written since it was added or restarted, and a finished row had exactly one more than its budget |
| RetryTable.AttemptsCountFailuresIff | internal/app/service/repeater/repeater.go:149-213 | for every configuration, attempts count failures in every run of n repeaters if and only if n is at most one |
| RetryTable.TwoRepeatersLoseAFailure | internal/app/repository/repeater.go:136-143 | with any larger number of repeaters a stale write can lose a failure |
| RetryTable.LeavesOnlyDischarged | internal/app/repository/repeater.go:128-134 | a step that removes a row is an ok answer for it or the purge of a finished row of the chosen class |
| RetryTable.RowsAreConserved | internal/app/repository/repeater.go:299-339 | over any run a row that is gone was answered ok, or was finished and purged by its topic, group and class |
| RetryTable.AddedRowIsAccounted | internal/app/repository/repeater.go:92-143 | at the end of any run every row ever added is still there for its message, with its content, or was answered ok or purged while it was |
| RetryTable.RowWaits | internal/app/repository/repeater.go:103-126 | an unfinished row that no repeater holds stays as it is as long as every iteration selects at a clock before its start, whatever else happens to the table |
| RetryTable.AddedRowWaits | internal/app/repository/repeater.go:92-126 | a row that was just added is not delivered before its start |
| RetryTable.FailedRowWaits | internal/app/repository/repeater.go:103-143 | after a failure at clock n, iterations before n plus the consumer's own delay, or else the delay of the next attempt, leave the row as it is |
| Repeater.RowsAreConservedBySdk | internal/app/service/repeater/repeater.go:160-201 | when every reply is the SDK's answer to the batch of one message, a row that was answered ok was answered under its own message id, after the client's handler returned no error |
| RetryTable.ForeignAnswerLosesRow | internal/app/service/repeater/repeater.go:191-201 | a run in which a row leaves the table by an ok result that names another message |
| Repeater.GroupByConsumerId | internal/app/model/repeat.go:32-41 | every consumer of the list, each with its own retries in their order |
| Repeater.Repository.Insert | internal/app/repository/repeater.go:92-101 | a new row under the next id, or nothing |
| Repeater.Repository.FindForRepeat | internal/app/repository/repeater.go:103-126 | every copy is unfinished, has its start reached and belongs to a connected topic and group, and every such row has exactly one current copy |
| Repeater.Repository.UpdateAttempt | internal/app/repository/repeater.go:136-143 | replaces the five columns of an existing row and nothing else |
| Repeater.Repository.FindFailedErrorsOfClass | internal/app/repository/repeater.go:313-339 | the resolved messages are exactly the stored errors of the class |
| Repeater.Repository.RestartFailedByError | internal/app/repository/repeater.go:285-296 | exactly the finished rows of the topic, group, class and time get attempt zero, no error and a start now, all others stay |
| Repeater.Repository.DeleteFailedByError | internal/app/repository/repeater.go:299-309 | deletes exactly the finished rows of the topic, group and class |
| Repeater.Repository.GetCount | internal/app/repository/repeater.go:145-153 | the three counts, which leave the pending rows |
| Repeater.Repeater.Add | internal/app/service/repeater/repeater.go:59-84 | stores a fresh row with the message's data, postponed if asked, due after the consumer's delay or the first delay of its strategy |
| Repeater.Repeater.Process | internal/app/service/repeater/repeater.go:149-213 | the row is left if nothing was learned or written, deleted after an ok first result, and otherwise takes the error, flag, attempt, start and finish the reply stands for; no other row changes |
| Repeater.SdkReplyNamesRow | internal/app/service/repeater/repeater.go:160-179 | the SDK answers the batch of one message with one result under the row's message id, ok exactly if its handler returned no error, else with the error's text, flag and delay |
| Repeater.Repeater.RepeatProcessor | internal/app/service/repeater/repeater.go:149-213 | each copy of the list is delivered exactly once and no other row changes |
| Repeater.Repeater.Repeat | internal/app/service/repeater/repeater.go:86-115 | a row that is finished, not due, not of a connected topic and group, not answered or not written stays as it is; any other is delivered exactly once and leaves if it was answered ok, or takes its failure |
| Repeater.DeliveryIsIteration | internal/app/service/repeater/repeater.go:86-115 | the steps of the table protocol for one repeater's copies, in any order, meet the contract of an iteration |
| Repeater.DeliveryOrderIsIrrelevant | internal/app/service/repeater/repeater.go:86-115 | taken in any two orders of the copies, they leave the same table, the one an iteration leaves |
| ErrorClasses.Merge | internal/app/model/errorclass.go:86-94 | one statistic absorbed into a class entry: counts add, earliest first, latest last with its sample |
| ErrorClasses.SummaryOfMore | internal/app/model/errorclass.go:86-94 | absorbing one statistic gives the recount of the class with it |
| ErrorClasses.EarliestIsMinimum | internal/app/model/errorclass.go:88-90 | the first failure of a class is the minimum of its known first failures, unknown only if all are |
| ErrorClasses.NewestIsFirstMaximum | internal/app/model/errorclass.go:91-94 | the sample comes from the first statistic that reaches the latest failure |
| ErrorClasses.GroupByClass | internal/app/model/errorclass.go:68-103 | for every class function: one entry per class, each the recount of its class, the total conserved, strictly ordered by count and class |
| ErrorClasses.BeforeIsLexicographic | internal/app/model/errorclass.go:96-101 | classes with equal counts are in dictionary order |
| ErrorClasses.GroupingIsUnique | internal/app/model/errorclass.go:68-103 | these promises determine the result |
| ErrorClasses.ErrorsOfClass | internal/app/model/errorclass.go:107-116 | the messages of the class, in their order |
| RetryStats.ClassCountIsRecount | internal/app/repository/repeater.go:44-54 | the merged count of a class is the number of failed rows whose error has that class |
| RetryStats.TotalIsRecount | internal/app/repository/repeater.go:44-54 | the counts of a topic and group add up to its failed rows |
| RetryStats.ClassEntryRecounts | internal/app/model/errorclass.go:68-103 | count, first and last failure of a class are a recount of the table, and the sample is the error of a row that failed last |
| RetryStats.WindowRows | internal/app/repository/repeater.go:69-82 | the rows counted for a pair are exactly its rows that failed at or after the start and before the end of the window, and the pair is of the requested topic and group |
| RetryStats.GetTriageStat | internal/app/repository/repeater.go:214-265 | one item per topic and group with a failure in the half-open window, each a recount of the rows failed in it |
| RetryStats.GetStat | internal/app/repository/repeater.go:155-212 | one item per topic and group of the table; its counts, its last error and its last reason for a postponement are those of the table, its failed rows are accounted for by its classes |
| RetryStats.LastErrorIsFailed | internal/app/repository/repeater.go:25-36 | as soon as anything of a pair failed for good, its last error is that of the failed row started last |
| RetryStats.LastReasonIsNewest | internal/app/repository/repeater.go:34-36 | the last reason of a pair is that of its postponed row with the latest start |
| RetryStats.LastErrorIsClassified | internal/app/repository/repeater.go:25-43 | an item shows no error class exactly when nothing failed; otherwise its last error belongs to one of its classes |
| RetryStats.TotalsAreDetermined | internal/app/repository/repeater.go:25-36 | the table determines the totals of a pair, so any joined row of it gives the same item |
| RetryStats.PairTotals | internal/app/repository/repeater.go:25-43 | for each topic and group all = failed + deferred + pending |
| ConsumerGauge.Metrics.AddConsumer | internal/pkg/metrics/metrics.go:243-252 | registering, also twice under one key, keeps the gauge equal to the recount |
| ConsumerGauge.Metrics.RemoveConsumer | internal/pkg/metrics/metrics.go:254-264 | removing, also twice, keeps the gauge equal to the recount |
| ConsumerGauge.Metrics.ChangeConsumerState | internal/pkg/metrics/metrics.go:266-277 | a state change keeps the gauge equal to the recount and is ignored after removal |
| ConsumerGauge.ReadAttempt.MarkConnected | internal/app/service/databus/consume.go:202-209 | a mark shows connected once, and only while its attempt is reading |
| ConsumerGauge.ReadAttempt.Finish | internal/app/service/databus/consume.go:216-219 | the end of an attempt shows reconnecting and disables its marks |
| ConsumerGauge.ConnectedOnlyWhileReading | internal/app/service/databus/consume.go:188-222 | in every order of batches, timers and attempts, connected is shown exactly while the newest attempt is reading and has proved itself |
| ConsumerGauge.LateTimerIsHarmless | internal/app/service/databus/consume.go:188-222 | a timer of an ended attempt changes nothing, however late |

## Left out

- OutboxFlusher.Flusher.Flush: a pass is bounded by finitely many inserts, without which the code does not end either. The order of a topic is promised under the condition that its own rows become visible in id order, which OutboxOrder.OrderKeptIff shows to be exact.
- OutboxReplicas.NoDeadlock: PostgreSQL is reduced to row locks that block and are taken in scan order, and to a skipped row when another transaction deleted it.
- ScalaFlusher.FlusherPass.ProcessMessages: one flusher at a time; futures are run in sequence, as they are chained.
- KafkaConsumer.Consumer.ConsumeLoop: runs are bounded by a number of attempts and rounds, whose end stands for the cancellation, and the broker is reduced to a committed offset per partition that a new reader resumes at; group rebalancing is not modelled. Clients answer as the SDK does; ConsumeHandler.HandledIffNamed says what any other client loses.
- Delivery.ConsumeAndRepeat: what the repeater's clients reply is arbitrary and not tied to the bytes on the stream; the rows are those of one bus process and the ones its operators and other consumers add.
- OutboxTriggers.IdleMeansDrained: that a clean pass ends with a fetch that finds nothing is proved of the pass (OutboxFlusher.Flusher.Flush, ScalaFlusher.FlusherPass.ProcessMessages) and used here as a step's condition.
- Repeater.Repeater.Repeat: the consumers' groups are delivered one after another; RetryTable.CountsPartition, RetryTable.AttemptsCountFailures and Repeater.DeliveryOrderIsIrrelevant cover the other orders.
- RetryTable.AttemptsCountFailures: the strategy a row is judged by is its own or a fixed default; changing the default while rows are pending is not modelled.
- Backoff.ProgressiveDelay: exact arithmetic instead of 32-bit floats and 64-bit durations.
- Throttle.ReportsSpaced: real clocks are integers chosen by the caller.
- ErrorClass and its patterns: the class function is arbitrary, and nothing relies on it being idempotent (the comment at internal/app/model/errorclass.go:9-11 claims that; `_12abcdef3a` refutes it: its class is `_<N>abcdef3a`, whose class is `_<N><HEX>`).
- Times equal to the zero time: a missing time stands for it.
- The inbox's disabled mode and messages with neither an idempotency key nor an id: the handler is then called without any check. That the id stands in for an empty key is part of choosing the key.
- The choice among several consumers of a topic and group, and which of them is connected: part of what a reply may be.
- SQL text, JSON options, protobuf and gRPC plumbing, configuration, TLS and SASL, logging, the HTTP admin interface and the web interface.
- The producer's size limits and the copying of admin data: one-branch facts.
