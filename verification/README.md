# Message-to-HTTP connectors: a verified model

The connectors take messages from a broker, call an HTTP endpoint once per message (with
retries) and publish the response or an error. Brokers, the endpoint, clocks and signals are
an environment that may choose anything within the assumptions below; what the connectors do
between those calls is modelled and proved.

| files | what they model |
|---|---|
| `Basics`, `Headers`, `Http` | the retry helper in `common`: its loop, its counter, the requests it sends, the error report |
| `KinesisModel`, `KinesisSafety`, `KinesisGuarantees`, `KinesisControl`, `KinesisShutdown`, `KinesisEffects` | the sharded reader as a labelled transition system: lister, dispatcher, any number of workers, the stream; its invariant; what whole runs guarantee; the order of a worker's acts and how it leaves a closed shard; how the system ends; what is published |
| `KinesisLister`, `KinesisWorker` | the lister's loop and the worker's goroutine as loops; the worker's loop is proved to take only steps of the transition system |
| `KafkaClaim`, `KafkaGroup`, `KafkaReady` | the claim loop and its mark; a partition over sessions, rebalances and crashes; the session loop of `main` and its wait for the ready channel |
| `Handling` | what becomes of one message in the three connectors that publish before they ack: stages, acts, and the calls the acts stand for; their differences are a `Policy` |
| `BoundedHandlers`, `JetStream`, `RabbitMq` | semaphore, handlers and acks under interleaving, redelivery and crash, shared by two connectors; each connector's own handler |
| `RedisLists`, `Redis` | lists under pops and pushes; the pop loop and the restart loop up to the cancellation |
| `NatsStreaming` | one subscriber with one message in flight; its callback |

A transition system is a relation `Next(state, label, state')`; a run is a sequence of states
and one of labels, and theorems quantify over all runs. What was done so far is read off the
labels, not kept in the state, apart from where a Kafka group began. A class that meets an environment takes its choices from a
function of the moment or of the call number, so a statement about all such functions covers
every behaviour; the cancellation comes at an arbitrary moment `cancelAt`.

Assumptions. Sequence numbers are non-empty and unique within a shard, logs only grow, and a
closed shard takes no records; a page is any run of at most `Limit` records from the iterator,
and there is no next iterator only when the page reaches the end of a closed shard. A call
made on a cancelled context fails; one already under way may still succeed. Kafka marks only
move forward, only marks are committed, and a session starts at the committed offset. A
broker may redeliver any message it still holds, and an ack that was sent may be lost. A NATS
Streaming server sends a new message only when the last one is acked; the claims about it
concern one subscription, and an interrupt, which unsubscribes, ends it. `net/http` gives back
a response together with an error only for a refused redirect. Every outside call returns.

Findings:

- `MaxRetries` equal to the largest int never ends the retry loop unless a request succeeds
  or cannot be built, because the counter wraps (`Http.StopsExactlyWhen`).
- A last status of exactly 300 is returned as a success although the loop retries it, where
  the comment on the helper promises an error in case of failure: `Http.CallOutcome` has the
  exact condition, `Http.Status300IsRetriedThenReturned` the input.
- Under Kafka's default `latest` policy and with nothing committed yet, messages can be
  committed past without being attempted (`KafkaGroup.NeverSkipsExactlyWhen`), but only those
  before the session that makes the first commit: from where that one began nothing ever is
  (`KafkaGroup.NothingSkippedSinceTheFirstCommitter`).
- A Kafka record header replaces the connector's own value exactly when the connector writes
  that name in canonical form; `Content-Type` it replaces, the four `KEDA-` names it is sent
  beside (`KafkaClaim.RecordHeaderReplacesExactlyWhen`, `KafkaClaim.OnlyContentTypeIsReplaced`).
- If the first Kafka session ends before `Setup`, `main`, having read the first ready
  channel, waits for good, whatever later sessions do (`KafkaReady.FailedFirstSessionBlocksMain`);
  when it can go on is `KafkaReady.CanEverGoOnExactlyWhen`.
- Redis answers and errors are only kept apart, and messages consumed only once, when the
  three topics differ (`RedisLists.FaithfulExactlyWhenDistinct`).
- The Kinesis worker's "shard not found" return is never taken
  (`KinesisGuarantees.NoWorkerLosesItsCheckpoint`).

## Model

| member | source | states |
|---|---|---|
| Headers.CopyHeaders | common/util.go:86-91 | each retry's request header is the copy of the given one that some map iteration order produces |
| Headers.CanonicalIsCaseInsensitive | common/util.go:89 | two names share a header line exactly when equal, or both valid names that differ only in case |
| Headers.RetriesCarrySameValues | common/util.go:86-91 | every retry carries under every canonical name exactly the values of the source keys of that name, as a multiset, whatever the iteration orders |
| Headers.SourceValuesStayInOneBlock | common/util.go:87-91 | each source key's values appear as one block in their own order |
| Headers.DistinctNamesFixTheOrder | common/util.go:87-91 | without keys that differ only in case every value list is independent of the iteration order |
| Http.FunctionErrorDetails.constructor | common/util.go:143-156 | a new report holds the request and a 500 with blank body and error |
| Http.FunctionErrorDetails.UpdateResponseDetails | common/util.go:158-184 | returns no error exactly for statuses 200 to 300, leaving the report alone; otherwise the error that describes the response |
| Http.StopsExactlyWhen | common/util.go:79-109 | with the 64-bit wrap written out, the loop leaves after finitely many rounds if and only if MaxRetries is below the largest int, or the request cannot be built, or some attempt succeeds |
| Http.LargestMaxRetriesNeverReturns | common/util.go:79 | the input that loops for ever: the largest MaxRetries and an endpoint that never answers |
| Http.Conclude | common/util.go:111-119 | the guard after the loop agrees with UpdateResponseDetails: an accepted leftover response is returned, any other becomes the error describing it |
| Http.Retry | common/util.go:79-109 | the loop leaves with the first 2xx, because the request cannot be built, or with the last response after max(0, MaxRetries+1) requests; its 64-bit counter is that of StopsExactlyWhen |
| Http.HandleHTTPRequest | common/util.go:76-120 | stops at the first 2xx or after max(0, MaxRetries+1) requests, each repeating the message and a copy of the headers; without a 2xx the result depends only on the last attempt |
| Http.StopsAtTheFirst2xx | common/util.go:79-109 | every attempt before the last failed, brought no response or had a status outside 200 to 299; a valid call that sends fewer than max(0, MaxRetries+1) requests ends on a status from 200 to 299 and returns that response |
| Http.FailuresAreDescribed | common/util.go:79-119 | the error tells a request that cannot be built, no response, an unreadable body, or the refused response's own status and body, with the message and headers of the call |
| Http.CallOutcome | common/util.go:79-119 | a finished call gives a response or an error, never both or neither, and a response exactly when the last attempt was in the 200s or exactly 300 |
| Http.Status300IsRetriedThenReturned | common/util.go:79-119 | an endpoint that always answers 300 is asked MaxRetries+1 times and its last answer is returned as a success |
| Http.CallIsDetermined | common/util.go:79-119 | the replies determine the number of requests and the result |
| KinesisSafety.CheckpointFindsItsPlace | aws-kinesis-http-connector/main.go:77-100 | an iterator rebuilt from the checkpoint points just past the last record handed over |
| KinesisSafety.WorkerStepKeepsLocal | aws-kinesis-http-connector/main.go:136-184 | every step of a worker keeps its page, position and checkpoint in line with the prefix it has handed over |
| KinesisSafety.PipelineStep | aws-kinesis-http-connector/main.go:50-74 | worker shards, the dispatcher's shard, the channel and the lister's shard stay one duplicate-free sequence whose elements are the seen-set |
| KinesisSafety.DataStep | aws-kinesis-http-connector/main.go:124-186 | every step keeps each worker's invariant, and shards without a worker untouched with "" as checkpoint once stored |
| KinesisSafety.WaitStep | aws-kinesis-http-connector/main.go:127-188 | every step keeps the wait-group count, the closing order and the condition for returning |
| KinesisSafety.InvAlways | aws-kinesis-http-connector/main.go:50-189 | the invariant holds in every state of every run |
| KinesisGuarantees.DeliveriesAreAPrefix | aws-kinesis-http-connector/main.go:77-189 | in every reachable state a shard's deliveries are exactly a prefix of its log and its checkpoint stands at their end, one behind only between call and store |
| KinesisGuarantees.EachShardOnce | aws-kinesis-http-connector/main.go:50-131 | each shard is sent, given "" and given a worker at most once, in discovery order, however often it is listed |
| KinesisGuarantees.ListedShardsAreSent | aws-kinesis-http-connector/main.go:50-74 | once the lister has worked off a listing every shard it named has been sent |
| KinesisGuarantees.NoWorkerLosesItsCheckpoint | aws-kinesis-http-connector/main.go:138-176 | the missing-checkpoint branches are never taken |
| KinesisGuarantees.AfterAWorkerReturns | aws-kinesis-http-connector/main.go:116-176 | after a worker returns nothing more of its shard is handed over; after the closed-shard return every record has been and the checkpoint stays gone |
| KinesisGuarantees.WaitGroupAndChannel | aws-kinesis-http-connector/main.go:127-188 | the counter equals the registered unfinished workers, no send on a closed channel, double close or negative counter is ever about to happen, and pullRecords returns only closed, drained and with all workers done |
| KinesisGuarantees.NothingStartsAfterWait | aws-kinesis-http-connector/main.go:127-188 | no send, receive, Add or spawn follows the start of Wait |
| KinesisControl.ActsComeInOrder | aws-kinesis-http-connector/main.go:136-184 | in every run the acts on a shard come in the code's order: checkpoint, iterator, page, each record and then its checkpoint to the end of the page, then the deletion if the page ended a closed shard, else the wait; nothing but the end after an error, the deletion or the cancellation |
| KinesisControl.ClosedShardIsLeft | aws-kinesis-http-connector/main.go:116-184 | after reading the page that ends a closed shard a worker starts no further round and waits for nothing; if it has left, it is for that, with every record handed over and the checkpoint gone |
| KinesisShutdown.CancelledStep | aws-kinesis-http-connector/main.go:50-188 | after the cancellation every step of the connector lowers the variant, the stream cannot raise it, and only a listing already under way succeeds |
| KinesisShutdown.BoundedAfterCancellation | aws-kinesis-http-connector/main.go:50-188 | steps after the cancellation are bounded by the variant plus the work of at most one listing already under way |
| KinesisShutdown.MovesUntilTerminated | aws-kinesis-http-connector/main.go:50-188 | a cancelled system that has not terminated can take a step: no deadlock among lister, channel, dispatcher, workers and Wait |
| KinesisShutdown.CancelledRunsTerminate | aws-kinesis-http-connector/main.go:50-188 | every infinite run that is cancelled and in which the scheduler does not starve the connector reaches termination: pullRecords returned, channel closed, every worker done |
| KinesisShutdown.SpentExactlyWhenTerminated | aws-kinesis-http-connector/main.go:187-331 | the variant is zero exactly when pullRecords has returned, the channel is closed and every worker is done |
| KinesisShutdown.AtMostOnePageAfterCancellation | aws-kinesis-http-connector/main.go:143-183 | at most ten more records per shard after the cancellation |
| KinesisShutdown.LateShardsFail | aws-kinesis-http-connector/main.go:124-148 | a shard without a worker at the cancellation gets at most one, whose acts are a prefix of: load the checkpoint, fail the first AWS call, finish |
| KinesisEffects.PagedReadingIsOnePass | aws-kinesis-http-connector/main.go:143-269 | whatever pages and schedules, the calls made for a shard are those of one pass over a prefix of its log |
| KinesisEffects.OnePublishPerRecord | aws-kinesis-http-connector/main.go:191-269 | the function is called with each delivered record's data once, in order; the publishes with its sequence number are exactly the answer's body on the response stream, or the error's text on the error stream, or none if that is not set, right after that call; a record not delivered has none |
| KinesisLister.FirstSeenIsEachNewShardOnce | aws-kinesis-http-connector/main.go:65-71 | what is sent holds every new shard exactly once and nothing else |
| KinesisLister.FirstSeenKeepsOrder | aws-kinesis-http-connector/main.go:65-71 | new shards are sent in the order in which they are first listed |
| KinesisLister.Lister.ScanListing | aws-kinesis-http-connector/main.go:65-71 | one listing adds its shards to the seen-set and sends exactly the new ones in listing order |
| KinesisLister.Lister.FindNewShards | aws-kinesis-http-connector/main.go:50-74 | over all listings up to the end each listed shard is sent once, where it is first listed |
| KinesisWorker.TrailKeepsLocal | aws-kinesis-http-connector/main.go:136-184 | the loop's steps, being steps of the transition system, leave its checkpoint at the end of a prefix |
| KinesisWorker.TrailComesInOrder | aws-kinesis-http-connector/main.go:136-184 | the loop's steps come in the order of its code |
| KinesisWorker.LeavesClosedExactlyAtTheEnd | aws-kinesis-http-connector/main.go:116-176 | a finished worker left as from a closed shard if and only if it read the page that ends one |
| KinesisWorker.ShardWorker.ConsumeMessage | aws-kinesis-http-connector/main.go:191-227 | one call, then an answer's body to the response stream or an error's text to the error stream, if that is set; the cancellation may come meanwhile |
| KinesisWorker.ShardWorker.ResponseHandler | aws-kinesis-http-connector/main.go:229-243 | publishes the body with the record's key and sequence number when a response stream is set |
| KinesisWorker.ShardWorker.ConsumePage | aws-kinesis-http-connector/main.go:160-169 | hands over the page in order, storing each checkpoint after its record, other shards' cells untouched |
| KinesisWorker.ShardWorker.OpenIterator | aws-kinesis-http-connector/main.go:143-151 | gives back what the service answered for the stored checkpoint, by steps of the transition system; an iterator was asked for before the cancellation |
| KinesisWorker.ShardWorker.FetchPage | aws-kinesis-http-connector/main.go:102-113 | gives back the page the service answered for the iterator, by steps of the transition system; the next iterator is never the current pointer |
| KinesisWorker.ShardWorker.FinishPage | aws-kinesis-http-connector/main.go:116-176 | returns, with the checkpoint deleted, if and only if there is no next iterator or it is the current pointer and the checkpoint was there; otherwise goes to the select |
| KinesisWorker.ShardWorker.ReadPage | aws-kinesis-http-connector/main.go:152-176 | hands over exactly the page that came back and returns exactly if the read failed or the page ends the shard |
| KinesisWorker.ShardWorker.Round | aws-kinesis-http-connector/main.go:137-177 | what a round hands over, whether it returns and why follow from the service's answers; it takes only steps of the transition system |
| KinesisWorker.ShardWorker.Scan | aws-kinesis-http-connector/main.go:131-186 | the goroutine ends; it has handed over a prefix by one pass and left its checkpoint accordingly; it returns as from a closed shard exactly if it read the page that ends one, with all of the shard handed over, and it does if the shard is closed and the service keeps answering |
| KafkaClaim.LastValidHeaderWins | kafka-http-connector/main.go:221-225 | each name carries the last record header of that canonical name with a valid UTF-8 value, else the connector's own |
| KafkaClaim.Connector.RequestHeaders | kafka-http-connector/main.go:212-225 | the request headers are the connector's own overlaid with the record's valid ones in order |
| KafkaClaim.RecordHeaderReplacesExactlyWhen | kafka-http-connector/main.go:212-227 | a valid record header replaces the connector's value if and only if the connector writes no other key of that canonical name |
| KafkaClaim.OnlyContentTypeIsReplaced | kafka-http-connector/main.go:212-218 | that fails for exactly the four KEDA- names |
| KafkaClaim.OwnKedaTopicIsAddedNotReplaced | kafka-http-connector/main.go:212-227 | the case of KEDA-Topic: both values are sent |
| KafkaClaim.RecordHeaders | kafka-http-connector/main.go:236-243 | under every key the produced record headers list exactly the response's values in order |
| KafkaClaim.Connector.MarkMessage | kafka-http-connector/main.go:244-246 | the mark covers the message, never goes back, and moves only to just past the message |
| KafkaClaim.MarkIsOnePastTheLastSuccess | kafka-http-connector/main.go:208-253 | the mark is one past the last message whose response step succeeded, unmoved if none did |
| KafkaClaim.MarkLeavesTheFailedTail | kafka-http-connector/main.go:208-253 | a message lies below the mark if and only if it or a later one succeeded |
| KafkaClaim.Connector.ResponseHandler | kafka-http-connector/main.go:279-297 | sends the body with its headers when a response topic is set; fails only if that is refused |
| KafkaClaim.OwnValuesAreCarried | kafka-http-connector/main.go:212-218 | every request carries the connector's own five values; only Content-Type can give way to a record header |
| KafkaClaim.MessageSays | kafka-http-connector/main.go:208-297 | one call with the message's value and own headers, then an answer's body with the response's headers to the response topic, or an error's text to the error topic, or nothing if that is not set |
| KafkaClaim.Connector.Handle | kafka-http-connector/main.go:208-253 | makes those calls and moves the mark exactly after an answer that was accepted or has no response topic |
| KafkaClaim.Connector.ConsumeClaim | kafka-http-connector/main.go:202-255 | whatever fails, every message of the claim has its calls in turn, as MessageSays has them, and the mark follows from the outcomes |
| KafkaGroup.InvAlways | kafka-http-connector/main.go:202-255 | over all runs, under either policy, what lies before a session's next message or below one of its marks has been attempted, from where the first committer (or, before any commit, the session) began |
| KafkaGroup.NothingSkippedSinceTheFirstCommitter | kafka-http-connector/main.go:202-378 | in all runs, under either policy, every message from where the session began that made the first commit up to the committed offset has gone through its response or error step |
| KafkaGroup.LatestCanSkip | kafka-http-connector/main.go:144-148 | a run with the default policy that commits past an unattempted message |
| KafkaGroup.NeverSkipsExactlyWhen | kafka-http-connector/main.go:202-378 | in all runs that holds from the group's own beginning, its first session or an earlier commit, if and only if the policy is earliest or an offset was committed before |
| KafkaGroup.ClaimIsAPath | kafka-http-connector/main.go:208-253 | the claim loop over a session's messages is a path of the partition's system, with the marks its outcomes give |
| KafkaGroup.MarkIsTheGreatest | kafka-http-connector/main.go:244-246 | the claim loop's mark is the greatest offset the session may commit |
| KafkaGroup.SessionsBeginSo | kafka-http-connector/main.go:144-148 | every session, under either policy, begins where it asked to and stays so begun while messages arrive: the starting point of the next two rows |
| KafkaGroup.SessionIsAPath | kafka-http-connector/main.go:202-255 | under either policy a session's claim loop, the commit of its mark and its end are a path of the partition's system |
| KafkaGroup.NextSessionReadsTheFailedTail | kafka-http-connector/main.go:208-253 | when the mark is committed the next session reads exactly the failed tail and whatever follows it on the partition, unless a first session under the default policy had no success: then it reads nothing that is there |
| KafkaReady.Main.Setup | kafka-http-connector/main.go:191-194 | closes the current channel, which is required to be open |
| KafkaReady.Main.SessionLoop | kafka-http-connector/main.go:366-379 | no ready channel is closed twice, and channel i is closed exactly if session i reached Setup |
| KafkaReady.SetupFindsItsChannelOpen | kafka-http-connector/main.go:191-194 | beside main, in every run, no channel is closed twice |
| KafkaReady.MainGoesOnExactlyWhen | kafka-http-connector/main.go:366-383 | main gets past its receive if and only if the session of the channel it read has reached Setup |
| KafkaReady.CanEverGoOnExactlyWhen | kafka-http-connector/main.go:366-383 | some continuation lets main go on if and only if its channel is closed or that channel's session may still reach Setup |
| KafkaReady.FailedFirstSessionBlocksMain | kafka-http-connector/main.go:366-383 | the run after which main never gets to its signals: the first session ends before Setup |
| BoundedHandlers.HandlersNeverExceedCapacity | nats-jetstream-http-connector/main.go:116-181 | tokens equal live handlers plus at most one callback between token and handler, live handlers never exceed the capacity, giving a token back never blocks, closed or not |
| BoundedHandlers.BlockedFeederHasALiveHandler | nats-jetstream-http-connector/main.go:116-119 | a callback blocked on a full semaphore has a live handler to wait for if and only if the capacity is at least one |
| BoundedHandlers.LiveHandlersCanStep | nats-jetstream-http-connector/main.go:150-182 | every live handler can take a step and every step brings it nearer to giving its token back |
| BoundedHandlers.TokensAlways | nats-jetstream-http-connector/main.go:116-181 | the token count and its bound hold in every state of every run |
| BoundedHandlers.InvAlways | nats-jetstream-http-connector/main.go:150-226 | in every state of every run a handler about to ack, or that has acked, is entitled to, and every message is safe |
| BoundedHandlers.AcksFollowOutcomes | rabbitmq-http-connector/main.go:60-85 | every ack follows its handler's entitling outcome, no handler acks twice, every produced message is held by the broker or has such an outcome, whether acks arrive or are lost |
| BoundedHandlers.RefinesAtomicQueue | rabbitmq-http-connector/main.go:47-85 | under every interleaving, redelivery, lost ack and crash a run is one of a queue that starts with nothing recorded, records outcomes only of messages it took in and forgets a message only after its outcome |
| JetStream.InitialiseConcurrency | nats-jetstream-http-connector/main.go:79-93 | the capacity is the configured number if that is at least one, else one |
| JetStream.Handler.ResponseHandler | nats-jetstream-http-connector/main.go:184-202 | succeeds exactly when a response topic is set and the publish is accepted |
| JetStream.HandlersSay | nats-jetstream-http-connector/main.go:150-226 | one call whose headers are the message's own over the connector's; an answer's body to the response topic and an ack if accepted; an error's text to the error topic if set, and an ack |
| JetStream.HandlersAckLast | nats-jetstream-http-connector/main.go:150-182 | a handler's calls hold at most one ack, the very last, exactly when the response was published or the call failed, right after that publish |
| JetStream.Handler.HandleHTTPRequest | nats-jetstream-http-connector/main.go:150-182 | the handler makes exactly those calls |
| JetStream.CallsFollowTheActs | nats-jetstream-http-connector/main.go:150-226 | the calls are those the acts stand for, act by act: an accepted publish of the response for Published, an accepted ack for AckSent |
| JetStream.HandlerIsAPath | nats-jetstream-http-connector/main.go:150-182 | in a reachable state a new handler's acts are a path of the system, tokens included, that ends with its token given back |
| JetStream.AcksOnlyAfterAnOutcome | nats-jetstream-http-connector/main.go:150-226 | in any run acks follow a published response or an error handler, only the latter without a response topic, and no message leaves the broker without one of them |
| RabbitMq.HandlersSay | rabbitmq-http-connector/main.go:63-140 | one call; an error's text to the error queue if set and no ack; an answer's body to the response queue if set, and an ack unless that was refused; a failed ack to the error queue |
| RabbitMq.HandlersAckOnce | rabbitmq-http-connector/main.go:63-83 | a goroutine's calls hold at most one ack, exactly after a successful response step, with only the report of its failure after it |
| RabbitMq.Handler.Handle | rabbitmq-http-connector/main.go:63-83 | the goroutine makes exactly those calls |
| RabbitMq.Handler.ResponseHandler | rabbitmq-http-connector/main.go:118-140 | fails exactly when a response queue is set and the publish is refused |
| RabbitMq.CallsFollowTheActs | rabbitmq-http-connector/main.go:63-140 | the calls are those the acts stand for, act by act |
| RabbitMq.HandlerIsAPath | rabbitmq-http-connector/main.go:63-83 | in a reachable state a new goroutine's acts are a path of the system, tokens included, that ends with its token given back |
| RabbitMq.AcksOnlyAfterTheResponse | rabbitmq-http-connector/main.go:63-140 | each ack follows its own goroutine's successful publish, or an answer when no response queue is set; never an error |
| RabbitMq.InFlightWithinCapacity | rabbitmq-http-connector/main.go:58-84 | handlers in flight never exceed the capacity; with capacity zero none ever starts |
| RedisLists.DistinctListsAreFaithful | redis-http-connector/main.go:34-103 | with distinct topics messages are consumed once in order, the response list gains exactly the bodies of the pushed answers and the error list the texts of the pushed errors, in pop order |
| RedisLists.FaithfulExactlyWhenDistinct | redis-http-connector/main.go:34-103 | that holds for every run if and only if the configured topics are distinct |
| Redis.Server.BLPop | redis-http-connector/main.go:40-47 | a successful pop takes the head of the source list and was made before the cancellation |
| RedisLists.EachMessageOnce | redis-http-connector/main.go:34-103 | whatever fails, each popped message has exactly one call, in pop order, and its outcome at most one push attempt, in turn |
| RedisLists.PushFollowsItsCall | redis-http-connector/main.go:45-103 | right before a call stands the pop of its message, right after it the attempt to push the answer's own body to the response list or the error's own text to the error list, if that is configured |
| Redis.Connector.PushOutcome | redis-http-connector/main.go:72-103 | one attempt to push the body to the response list or the error's text to the error list, none if that is not configured |
| Redis.Connector.Deal | redis-http-connector/main.go:45-68 | exactly one call and at most one push attempt; the log gains exactly this message with its outcome, and the lists follow the log |
| Redis.Connector.PopLoop | redis-http-connector/main.go:34-69 | the loop ends by its own check or a failed pop, with at most one pop coming back after the cancellation, and has done for each message it took what the log says, once |
| Redis.Connector.ConsumeMessage | redis-http-connector/main.go:25-70 | returns the bare context error only from its own check; at most one pop comes back after the cancellation; each message taken has had one call and at most one push attempt |
| Redis.Connector.Serve | redis-http-connector/main.go:150-164 | over all restarts each message taken is called once and pushed at most once, the lists are what the logged pops and pushes make of them, and after the cancellation there is at most one further pop and two calls of consumeMessage |
| NatsStreaming.NextResponseInOrder | nats-streaming-http-connector/main.go:35-61 | a response published now is for the message last answered or the one after it |
| NatsStreaming.InvAlways | nats-streaming-http-connector/main.go:35-61 | order and acks are right in every state of every run |
| NatsStreaming.Connector.ResponseHandler | nats-streaming-http-connector/main.go:108-126 | succeeds exactly when a response topic is set and the publish is accepted |
| NatsStreaming.AckedPrefixIsAnswered | nats-streaming-http-connector/main.go:35-61 | acked messages are an answered prefix of the log, responses follow log order with repeats only of the same message, nothing is acked without a response topic |
| NatsStreaming.EveryAckFollowsItsResponse | nats-streaming-http-connector/main.go:49-54 | every ack is for the message whose response was published last |
| NatsStreaming.CallsFollowTheActs | nats-streaming-http-connector/main.go:35-126 | the calls are those the acts stand for, act by act |
| NatsStreaming.CallbackIsAPath | nats-streaming-http-connector/main.go:35-60 | a callback's acts are a path of the transition system to its return |
| NatsStreaming.CallbacksSay | nats-streaming-http-connector/main.go:35-126 | one call; an error's text to the error topic if set; an answer's body to the response topic if set, and an ack only if that was accepted; a failed ack to the error topic |
| NatsStreaming.CallbacksAckOnce | nats-streaming-http-connector/main.go:35-60 | a callback's calls hold at most one ack, exactly when the response was published, right after that publish, with only the report of its failure after it |
| NatsStreaming.Connector.OnMessage | nats-streaming-http-connector/main.go:35-60 | the callback makes exactly those calls |

## Left out

- KinesisWorker.ShardWorker.Scan: one worker alone; other goroutines writing other shards' checkpoints are in the transition system, where all interleavings are covered.
- Redis.Connector.Serve: runs up to a cancellation at an arbitrary moment; a run that is never cancelled is covered by its finite parts only.
- BoundedHandlers.HandlersNeverExceedCapacity: a callback still waiting for a token when the semaphore is closed panics in the source; such a callback takes no further step here.
- KafkaGroup.NothingSkippedSinceTheFirstCommitter: a message counts as attempted once its response or error step is over, whether or not the producer accepted the error; a failure below a later success is not retried.
- Publishing errors: only whether a publish was accepted is modelled, not its retries inside the client libraries.
- Logging, tickers, signals, JSON encoding, body closing and the HTTP transport are environment choices or abstract functions.
- Log retention, resuming after a process restart, parent-before-child order and truncated listings of Kinesis: the connector promises nothing about them.
- Parsing of environment variables and credentials, TLS and SASL set-up, the SCRAM client: thin branch tables over library calls.
- The SQS connector repeats the ack-after-response rule without concurrency; the Pub/Sub connector waits on a wait group that is never released.
