# Verified model of the shared messaging, cache and posts logic

This project models the parts of the services that carry protocol, state or arithmetic, and proves what they
promise: the RabbitMQ retry and dead-letter protocol with its topology, the Redis cache, counter and pattern
invalidation, the likes and soft deletion of posts, and listing with pagination.

`dafny verify dfyconfig.toml` checks everything.

| file | what it holds |
|---|---|
| `Topic.dfy` | topic matching of AMQP 0-9-1, section 3.1.3.3 |
| `Topology.dfy` | a broker's exchanges, queues and bindings, and `assertTopology` |
| `Consumer.dfy` | messages, the channel, the publisher, `consumeWithRetry`, the notification consumer |
| `BrokerRun.dfy` | the broker, any number of consumers, expiry and crashes, as a transition system |
| `NoLoss.dfy`, `Termination.dfy`, `WorstCase.dfy`, `Endless.dfy`, `Conservation.dfy`, `RequeuePolicy.dfy`, `Integrity.dfy`, `History.dfy` | theorems about its runs |
| `Json.dfy`, `JsonRoundTrip.dfy` | `JSON.stringify` and `JSON.parse`, and that they fit together |
| `JsonGrammar.dfy`, `JsonParsing.dfy` | JSON texts as sections 2 to 7 of RFC 8259 build them, and that `JSON.parse` accepts exactly those |
| `Redis.dfy`, `CacheRuns.dfy`, `Counter.dfy`, `Scan.dfy` | `RedisService`: its operations, concurrent `getOrSet`, the counter, `deletePattern` |
| `Posts.dfy`, `PostRuns.dfy` | `PostsService` one call at a time, and interleaved |
| `Listing.dfy`, `Pagination.dfy` | the three listings, and page arithmetic |
| `Wrappers.dfy`, `Sums.dfy` | `Option`, sizes of sets and sums over maps |

Code that changes state step by step is a class or a method with a loop, proved against a function of the old
state; the theorems are about those functions, over every input, run or interleaving.

## Assumptions of the environment

- A channel's commands reach the broker in the order they were made; when the channel dies, any number of them
  have reached it, and its unacknowledged deliveries return to their queues. The broker itself does not lose
  what it took in. Any ready copy may be delivered next, to any channel.
- Queue and exchange declarations with arguments that differ from those in force are refused, and so are
  bindings between things that do not exist and declarations of the default exchange. A message goes through the
  main exchange, with or without the publisher, or through the default exchange straight to a queue, as the
  events of `apps/auth-service/src/auth.service.ts` line 48 do.
- A handler, a `send`, a `fetch`, a Redis command may succeed or fail at any time; which of the two is an input.
- Redis carries out one command, or one MULTI/EXEC transaction, at a time. A full SCAN iteration returns every
  matching key that was there from its first call to its last, and may repeat keys.
- MongoDB carries out one `findOneAndUpdate` at a time. Handing a document back to it sets every field the
  document has, `deletedAt` included, since the schema gives it a default. Ids are unique. Posts created at the
  same time may come in any order, and in another one in the next query.

## Where code and comments differ

The model follows the code.

- `libs/rabbitmq/src/rabbitmq.consumer.utils.ts` lines 13-15 describe a nack with requeue. The function never
  does that: it republishes and acknowledges.
- `libs/rabbitmq/src/topology.ts` lines 24-26 mention `publishWithRetry` and an `x-delay` header. Neither
  exists, and `retryDelayMs` is not read.
- `libs/redis/src/redis.service.ts` lines 9-11 say `getOrSet` eliminates the race between its branches. There
  is no lock. `CacheRuns.BoundedStaleness` is what holds, and `CacheRuns.FreshExactlyWhenClean` and
  `CacheRuns.DeletionSuffices` say exactly when more does; `CacheRuns.OldValueComesBack` is a run in which it does
  not.
- `libs/redis/src/redis.service.ts` lines 44-45 store a string as it is. A string that is itself JSON text
  comes back as what it denotes: `JsonParsing.CodecRoundTrip`, and `JsonRoundTrip.DigitsComeBackAsNumber` for
  one.
- `libs/redis/src/redis.service.ts` lines 87-100 pass the pattern to SCAN as given, while the client of
  `libs/redis/src/redis.module.ts` line 25 prefixes the keys of DEL. `Scan.InvalidatesExactlyWithoutPrefix`
  says that invalidation then works exactly for the empty prefix, which is not the default.
- `libs/rabbitmq/src/rabbitmq.publisher.ts` line 42 lets a caller's header override the initial attempt, and
  line 37 of the consumer turns a header that is no number into NaN, with which no attempt is the last:
  `Consumer.FreshAttempt`, `Endless.BoundedExactlyWhenCounted`.
- `apps/notification-worker/src/main.ts` lines 15-20 declare `notification.queue` without the dead-letter
  arguments of `assertTopology`. If that queue were configured, whichever declaration comes second would be
  refused: `Topology.PlainDeclarationClashes`. No module of the repository configures it at present
  (`apps/auth-service/src/auth.module.ts` lines 36-37 pass no queues).
- `apps/posts-service/src/posts/posts.service.ts` lines 10-17 and 35-39 pass on whatever data they are given,
  while `apps/posts-service/src/posts/posts.controller.ts` lines 18 and 63 declare a few fields of it, which
  nothing checks. What data outside the declared fields can break is stated exactly:
  `Posts.CountKeptExactly`, `Listing.SoftDeleteIsPermanent`.
- `apps/posts-service/src/posts/posts.repository.ts` lines 17, 26 and 35 sort by creation time alone. What ties
  leave open is stated exactly: `Listing.ListingIsUnique`, `Listing.PagesShowListing`.

## Model

| member | source | states |
|---|---|---|
| `Topic.MatchIsACut` | libs/rabbitmq/src/topology.ts:33-43 | The matching a topic exchange does is the one of AMQP 0-9-1, section 3.1.3.3: a key matches exactly when its words can be cut into one stretch per pattern word, one word for a literal or `*`, any number for `#` |
| `Topic.FindCuts` | libs/rabbitmq/src/topology.ts:33-43 | For a matching key, one such cut, constructed |
| `Topic.CutsMatch` | libs/rabbitmq/src/topology.ts:33-43 | Any such cut makes the key match |
| `Topic.WordsJoin` | libs/rabbitmq/src/topology.ts:33-43 | A key is its words with dots between them, and no word holds a dot |
| `Topic.JoinSplits` | libs/rabbitmq/src/topology.ts:33-43 | Dotless words, joined, are found again: the words are the only such |
| `Topic.HashMatchesAll` | libs/rabbitmq/src/topology.ts:33 | The DLQ's binding pattern matches every key, the empty one included |
| `Topic.PatternMatchesItself` | libs/rabbitmq/src/topology.ts:40-43 | A routing key used both as pattern and as dead-letter key matches itself, wildcards included |
| `Topology.Broker.AssertExchange` | libs/rabbitmq/src/topology.ts:29-30 | The broker accepts an exchange unless it has it with other arguments; a refusal changes nothing |
| `Topology.Broker.AssertQueue` | libs/rabbitmq/src/topology.ts:36-42 | The broker accepts a queue unless it has it with other arguments; a refusal changes nothing |
| `Topology.Broker.BindQueue` | libs/rabbitmq/src/topology.ts:33-43 | The broker accepts a binding exactly when queue and exchange exist; a refusal changes nothing |
| `Topology.AssertTopology` | libs/rabbitmq/src/topology.ts:28-45 | The declarations and the loop over `config.queues` leave the broker, and reject, as running the configuration's script up to its first refusal does |
| `Topology.TopologyOutcome` | libs/rabbitmq/src/topology.ts:28-45 | On any broker, the call goes through exactly when nothing there, and nothing in the configuration itself, contradicts the configuration; then the broker holds what it held, what the configuration names, and nothing else |
| `Topology.DeclaredArguments` | libs/rabbitmq/src/topology.ts:28-45 | What a completed call leaves declared on any broker, in literals: two durable topic exchanges; a durable DLQ without dead-letter arguments, bound with `#`; every queue durable, dead-lettering to the dead-letter exchange under the key it is bound with |
| `Topology.PerQueueOutcome` | libs/rabbitmq/src/topology.ts:35-44 | The same for the loop alone, from any broker and for any list of queues |
| `Topology.RerunConverges` | libs/rabbitmq/src/topology.ts:28-45 | After any prefix of an earlier call, refused or cut short, a full call answers and leaves what one clean call would have |
| `Topology.RerunAfterPrefix` | libs/rabbitmq/src/topology.ts:28-45 | The same of any script of declarations |
| `Topology.RunHolds` | libs/rabbitmq/src/topology.ts:28-45 | Nothing a completed script declared is undone by the rest of it |
| `Topology.FailurePoint` | libs/rabbitmq/src/topology.ts:28-45 | A refused script stopped at a declaration that is refused again by the broker it left |
| `Topology.QueueOrderIrrelevant` | libs/rabbitmq/src/topology.ts:35-44 | Reordering or repeating entries of `config.queues` changes neither the answer nor the topology |
| `Topology.PlainDeclarationClashes` | apps/notification-worker/src/main.ts:15-20 | A configured queue cannot also be declared without dead-letter arguments: whichever of that declaration and `assertTopology` comes second is refused |
| `Topology.DeadLettersArrive` | libs/rabbitmq/src/topology.ts:32-43 | What a declared queue dead-letters reaches the DLQ, for every routing key; it reaches nothing else exactly when the two exchanges differ, and otherwise also comes back to the queue that gave it up |
| `Topology.RoutesStayDeclared` | libs/rabbitmq/src/topology.ts:28-45 | Every route ends in a configured queue or the DLQ; the main exchange never feeds the DLQ unless it is the dead-letter exchange; and the default exchange hands a message to the queue of that name |
| `Consumer.Publisher.Publish` | libs/rabbitmq/src/rabbitmq.publisher.ts:35-52 | Exactly one message with the documented properties goes to the channel, or none and the failure is rethrown |
| `Consumer.FreshAttempt` | libs/rabbitmq/src/rabbitmq.publisher.ts:42 | A published message starts at attempt 0 exactly when the caller's headers do not override it |
| `Consumer.OutgoingMessage` | libs/rabbitmq/src/rabbitmq.publisher.ts:35-44 | Every part of a published message in terms of what the caller gave: JSON content, exchange and key, persistent unless told otherwise, ids and expiration as given, all the caller's headers and besides them a first attempt of 0 |
| `Consumer.ConsumeWithRetry` | libs/rabbitmq/src/rabbitmq.consumer.utils.ts:28-69 | The commands made, in order: ack; or nack without requeue at the last attempt; or republish, then ack |
| `Consumer.SettledByHeader` | libs/rabbitmq/src/rabbitmq.consumer.utils.ts:36-67 | The commands after a success and after a failure, said of the raw header: absent or null counts as attempt 0, a number as itself, anything else is never given up; what is published again is the message with only its attempt header changed |
| `Consumer.RetriedKeepsMessage` | libs/rabbitmq/src/rabbitmq.consumer.utils.ts:54-66 | A retry carries the next attempt (NaN stays NaN) and differs from the original in nothing else |
| `Consumer.HandleNotification` | apps/notification-worker/src/notification.controller.ts:18-30 | Ack after a completed send, nack with requeue after a failed one |
| `Consumer.SettledByRequeue` | apps/notification-worker/src/notification.controller.ts:18-57 | Ack, or nack with requeue, and nothing else |
| `NoLoss.NoMessageIsLost` | libs/rabbitmq/src/rabbitmq.consumer.utils.ts:39-68 | After any run under either policy, with channels dying after any prefix of their commands and messages expiring, every copy ever enqueued has had a completed handler run on it or a descendant, or has a descendant ready, unacknowledged or in the DLQ |
| `NoLoss.StepKeeps` | libs/rabbitmq/src/rabbitmq.consumer.utils.ts:39-68 | Every step keeps the invariant: what each channel still has to send is exactly what its deliveries' outcomes call for, every copy is where the topology puts it, the books balance, nothing is lost |
| `NoLoss.RunKeeps` | libs/rabbitmq/src/rabbitmq.consumer.utils.ts:39-68 | The invariant along whole runs |
| `NoLoss.HeadIsDue` | libs/rabbitmq/src/rabbitmq.consumer.utils.ts:39-68 | The next command of a channel is the first one due on a delivery that channel holds, so no ack or nack is ever sent for anything else |
| `NoLoss.ApplyPublishKeeps` | libs/rabbitmq/src/rabbitmq.consumer.utils.ts:57-67 | Republishing before acknowledging leaves a copy of the message at every moment in between |
| `NoLoss.CrashKeeps` | libs/rabbitmq/src/rabbitmq.consumer.utils.ts:57-68 | A channel that dies with any commands unsent, also between republish and ack, keeps the invariant |
| `NoLoss.DeadLetteringKeeps` | libs/rabbitmq/src/topology.ts:32-43 | Dead-lettering moves a copy to the DLQ, exactly once, with its lineage |
| `Termination.FreshHandlerRunsBounded` | libs/rabbitmq/src/rabbitmq.consumer.utils.ts:47-67 | A message with attempt 0 whose key reaches at most k queues leads, without crashes, to at most k·(1+k+…+k^(maxAttempts−1)) handler runs, whatever the handlers do |
| `Termination.HandlerRunsBounded` | libs/rabbitmq/src/rabbitmq.consumer.utils.ts:47-67 | The same for any numeric attempt header and any `maxAttempts`, negative ones included, with the runs they leave |
| `Termination.WholeRunsEnd` | libs/rabbitmq/src/rabbitmq.consumer.utils.ts:47-67 | Any run from the start, publishing numeric attempts at any time, is no longer than its publishes, its crashes, and what each message published can cost with the crashes still to come |
| `Termination.AllHandlerRunsBounded` | libs/rabbitmq/src/rabbitmq.consumer.utils.ts:47-67 | In a crash-free run, the handler runs are at most the sum of k·(1+k+…+k^(n−1)) over the messages published in it |
| `Termination.RunsEnd` | libs/rabbitmq/src/rabbitmq.consumer.utils.ts:47-67 | From any state of such a run, what follows the last publish has a length bounded by that state and the number of crashes |
| `Termination.RunPays` | libs/rabbitmq/src/rabbitmq.consumer.utils.ts:47-67 | For any prices of steps, a run costs no more than the weights of the live copies and of what is published in it, where a retry weighs as much as a copy in every queue its key reaches |
| `Termination.StepReaches` | libs/rabbitmq/src/rabbitmq.consumer.utils.ts:47-67 | Every step that does not publish a non-number keeps all attempts numbers, and the invariant |
| `WorstCase.BoundIsReached` | libs/rabbitmq/src/rabbitmq.consumer.utils.ts:47-67 | The bound on handler runs is attained: every run in which all handlers fail until the work queues are empty has exactly that many, and there is one |
| `WorstCase.HeaderlessRuns` | libs/rabbitmq/src/rabbitmq.consumer.utils.ts:37-67 | A message without the header, sent by any means, gets exactly the handler runs of one with attempt 0 |
| `WorstCase.RunExact` | libs/rabbitmq/src/rabbitmq.consumer.utils.ts:47-67 | In such a run no weight is lost: handler runs so far and the weight still live always add up to the same |
| `WorstCase.RunOut` | libs/rabbitmq/src/rabbitmq.consumer.utils.ts:47-67 | From any state with numeric attempts, such a run can be gone on with until the work queues are empty |
| `Termination.CrashPays` | libs/rabbitmq/src/rabbitmq.consumer.utils.ts:57-68 | Redelivery after a crash, of retried deliveries too, is paid for by there being one crash less to come |
| `Termination.WorthInHandlerRuns` | libs/rabbitmq/src/rabbitmq.consumer.utils.ts:47-67 | The weight of a copy with r runs left is 1+k+…+k^(r−1) handler runs |
| `Termination.HandlerBoundGrows` | libs/rabbitmq/src/rabbitmq.consumer.utils.ts:47-67 | The bound grows with the queues reached and with the attempts allowed |
| `Endless.BoundedExactlyWhenCounted` | libs/rabbitmq/src/rabbitmq.consumer.utils.ts:37-67 | A published message that reaches a queue can cause only boundedly many handler runs exactly when the consumer counts attempts and the header is a number |
| `Endless.SpinOnce` | libs/rabbitmq/src/rabbitmq.consumer.utils.ts:37-67 | With a NaN attempt, or under the requeue policy, one failed handler run leads back to where the message was |
| `Endless.SpinFor` | apps/notification-worker/src/notification.controller.ts:18-30 | So there is a run with any number of handler runs |
| `Conservation.EveryMessageInOnePlace` | libs/rabbitmq/src/rabbitmq.consumer.utils.ts:37-67 | With one queue per key and no crashes or expiry, at every reachable state each published message is either acknowledged as handled or exactly one copy; its attempt is its recorded failures and below the limit; it is in the DLQ, or being nacked into it, exactly when the allowed number of runs have failed |
| `Conservation.StepConserves` | libs/rabbitmq/src/rabbitmq.consumer.utils.ts:37-67 | Every such step keeps that bookkeeping |
| `Conservation.RetryConserves` | libs/rabbitmq/src/rabbitmq.consumer.utils.ts:57-67 | Republishing hands the message over to the new copy, whose attempt counts the failure |
| `Conservation.RejectConserves` | libs/rabbitmq/src/rabbitmq.consumer.utils.ts:47-52 | Giving up hands it over to the DLQ, at the limit and not before |
| `Conservation.AckConserves` | libs/rabbitmq/src/rabbitmq.consumer.utils.ts:39-42 | An ack finishes the message after success, and after a republish only removes the old copy |
| `RequeuePolicy.NotificationsAccountedFor` | apps/notification-worker/src/notification.controller.ts:18-57 | After any run, crashes and expiry included, published copies = waiting + unacknowledged + acknowledged + expired, each once; acknowledged ones have had a completed send; settlement puts nothing in the DLQ; no message has two live copies |
| `RequeuePolicy.StepRequeues` | apps/notification-worker/src/notification.controller.ts:18-57 | Every step keeps this |
| `Integrity.MessagesStayIntact` | libs/rabbitmq/src/rabbitmq.consumer.utils.ts:54-66 | After any run under either policy, every copy, in a work queue or in the DLQ, carries the content, ids and other headers of the message it was published as, and in a work queue also its exchange, key and expiration |
| `Integrity.StepKept` | libs/rabbitmq/src/rabbitmq.consumer.utils.ts:54-66 | Every step keeps this |
| `History.HistoryIsTrue` | libs/rabbitmq/src/rabbitmq.consumer.utils.ts:39-68 | What the theorems call served, finished and failed is what happened: a copy is served exactly by a completed handler run on it or a descendant, a message finished exactly by the acknowledgement of such a run, and its failures are its failed runs, one each |
| `Json.ReadString` | libs/redis/src/redis.service.ts:38 | What a JSON string denotes is shorter than the text it was read from |
| `Json.ReadValue` | libs/redis/src/redis.service.ts:38 | Every value takes up text, and a string at least its quotes more than its length |
| `JsonRoundTrip.ParsePrint` | libs/redis/src/redis.service.ts:38-45 | `JSON.parse(JSON.stringify(v))` is `v`, for nested arrays and objects, every string and every integer |
| `JsonRoundTrip.PrintReads` | libs/redis/src/redis.service.ts:38-45 | The same inside a larger text: reading stops exactly where the value ends |
| `JsonRoundTrip.NumberExtends` | libs/redis/src/redis.service.ts:38 | A number reads the same whatever delimiter follows it |
| `JsonRoundTrip.IntegerReads` | libs/redis/src/redis.service.ts:38-45 | The decimal text of an integer reads as that integer |
| `JsonRoundTrip.EscapesRead` | libs/redis/src/redis.service.ts:38-45 | Escaping a string is undone by reading it, control characters included |
| `JsonRoundTrip.NoStringParsesToItself` | libs/redis/src/redis.service.ts:34-42 | No string parses to itself |
| `JsonParsing.ParsesExactly` | libs/redis/src/redis.service.ts:37-41 | `JSON.parse` gives a value for a text exactly when the text is JSON for it by the grammar: white space, one value, white space, and nothing more |
| `JsonParsing.ReadsTree` | libs/redis/src/redis.service.ts:37-41 | Reading what a syntax tree spells gives what the tree means and stops at its end |
| `JsonParsing.TreeOf` | libs/redis/src/redis.service.ts:37-41 | Whatever is read was spelled by a syntax tree that means it |
| `JsonParsing.PrependedIsCollected` | libs/redis/src/redis.service.ts:37-41 | Keys given more than once, read from the back, come to what assigning them from the front does |
| `JsonParsing.DecodeMeans` | libs/redis/src/redis.service.ts:34-42 | `get` makes of a text what it is JSON for, and the text itself if it is none |
| `JsonParsing.EncodeMeans` | libs/redis/src/redis.service.ts:44-45 | `set` stores a string as it is and JSON for any other value |
| `JsonParsing.NoTrailingText` | libs/redis/src/redis.service.ts:37-41 | The string "5 km" is no JSON text and comes back as it is |
| `JsonParsing.DecimalTexts` | libs/redis/src/redis.service.ts:37-45 | The texts a number with a fraction or an exponent may be kept as are those of the grammar |
| `JsonParsing.CodecRoundTrip` | libs/redis/src/redis.service.ts:34-48 | `get` undoes `set` for every value that is no string, and for a string exactly when it is no JSON text by the grammar |
| `JsonRoundTrip.CodecRoundTrip` | libs/redis/src/redis.service.ts:34-48 | The same said of the parser |
| `JsonRoundTrip.DigitsComeBackAsNumber` | libs/redis/src/redis.service.ts:34-48 | The string "5" comes back as the number 5 |
| `Redis.RedisService.Get` | libs/redis/src/redis.service.ts:34-42 | `null` for a missing or expired key, otherwise the parsed text or the text itself; the store is untouched |
| `Redis.RedisService.Set` | libs/redis/src/redis.service.ts:44-48 | The encoded value under the key, with a deadline exactly when the TTL, or else the default one, is positive, and no other key changed |
| `Redis.RedisService.GetOrSet` | libs/redis/src/redis.service.ts:60-76 | For every pattern of read, fetch and write failures: a hit is returned without a fetch, otherwise there is one fetch and its answer or exception is the result; the store changes only by writing a fetched value |
| `Redis.RedisService.IncrWithTtl` | libs/redis/src/redis.service.ts:79-85 | INCR and EXPIRE NX together; 0 when the transaction is aborted or INCR errs; a rejection when `exec` rejects, with or without effect |
| `Redis.EntryLife` | libs/redis/src/redis.service.ts:34-48 | What `set` stores is read for exactly its TTL, or for good if that is not positive, and nothing from then on; every other key reads as before at every later time |
| `Redis.GetMeans` | libs/redis/src/redis.service.ts:34-42 | What `get` returns, in terms of the stored text, its deadline and the grammar |
| `Redis.GetAfterSet` | libs/redis/src/redis.service.ts:34-48 | A `get` right after a `set` gives the value back exactly when it is no string that is JSON text, whatever the TTL |
| `Redis.CountedExactly` | libs/redis/src/redis.service.ts:79-85 | What `incrWithTtl` does to a key that is not there, to one that holds an integer, and to one that holds anything else: answer, text, deadline kept or set; no other key is affected |
| `Redis.IntegerTexts` | libs/redis/src/redis.service.ts:79-85 | INCR accepts exactly the texts INCR writes |
| `CacheRuns.BoundedStaleness` | libs/redis/src/redis.service.ts:60-76 | Over every interleaving of concurrent `getOrSet`, `del`, source changes, time and failures, a hit at T is what the codec makes of a value that an identified call for the key fetched while the source held it, and wrote less than that call's own TTL before T (if that TTL is positive); anything else returned was held when the call's own fetch ran |
| `CacheRuns.StepSourced` | libs/redis/src/redis.service.ts:60-76 | Every step keeps every entry, and every call, traceable to such a fetch and write |
| `CacheRuns.ReadSourced` | libs/redis/src/redis.service.ts:60-66 | A hit is on an entry whose deadline, its writer's TTL after its write, has not passed |
| `CacheRuns.ServedForItsTtl` | libs/redis/src/redis.service.ts:60-76 | After a write that reached Redis, while nobody deletes or writes the key, a read that does not fail is a hit on what was written for exactly its TTL, and a miss from then on |
| `CacheRuns.SerialCall` | libs/redis/src/redis.service.ts:60-76 | The parts of a call with nothing in between return and store what `getOrSet` does |
| `CacheRuns.FreshExactlyWhenClean` | libs/redis/src/redis.service.ts:60-76 | From a point on, every new call returns the source's value while that stays, exactly when the live entry, every write under way and the codec agree with it |
| `CacheRuns.CleanRun` | libs/redis/src/redis.service.ts:60-76 | From such a point, whatever reads and writes fail, no cache effect shows |
| `CacheRuns.DeletionSuffices` | libs/redis/src/redis.service.ts:50-76 | Deleting a key makes later calls fresh exactly when no older fetch is still to be written and the codec preserves the current value |
| `CacheRuns.StaleWrite` | libs/redis/src/redis.service.ts:60-76 | A call about to write a value that disagrees makes a later call return it |
| `CacheRuns.OldValueComesBack` | libs/redis/src/redis.service.ts:50-76 | A run from an empty cache in which the source changes and the key is deleted, and a later call is still served the old value |
| `Counter.AnswersArePositions` | libs/redis/src/redis.service.ts:79-85 | With one positive TTL and a key nothing else touches, every answer is the call's position in its window, a window being opened by the first call and by each call at or after the deadline of the last |
| `Counter.NextAnswer` | libs/redis/src/redis.service.ts:79-85 | One call further: the answer, the stored count and the deadline |
| `Counter.FewLowAnswers` | libs/redis/src/redis.service.ts:78-85 | Of the calls within one TTL of each other, at most 2L−1 have a position up to L |
| `Counter.LimiterBound` | libs/redis/src/redis.service.ts:78-85 | So a limiter that lets answers up to L through lets through at most 2L−1 calls in any interval of one TTL |
| `Counter.BurstReachesBound` | libs/redis/src/redis.service.ts:78-85 | And for every L there are calls that reach this bound |
| `Scan.Client.Del` | libs/redis/src/redis.service.ts:97 | DEL removes the prefixed keys and counts those that were there, repeated ones once |
| `Scan.DeletePattern` | libs/redis/src/redis.service.ts:91-100 | Whatever other clients do between commands, the loop ends with the scan, leaves the store its rounds make, and returns exactly how many keys its DELs took out |
| `Scan.DeletedTakes` | libs/redis/src/redis.service.ts:97 | Deleting a batch key by key is deleting its set of keys, and counts its keys that were there |
| `Scan.KeyThroughLoop` | libs/redis/src/redis.service.ts:91-100 | For any key prefix: a key no DEL names ends as the other clients alone would have left it, and one a DEL names is gone unless somebody writes it in a later round |
| `Scan.PatternDeleted` | libs/redis/src/redis.service.ts:91-100 | Without a key prefix, whatever other clients do: no matching key is left that nobody else wrote meanwhile, and a key that does not match ends as the other clients alone would have left it |
| `Scan.OverwrittenGone` | libs/redis/src/redis.service.ts:91-100 | A matching key that others overwrite but do not remove is named by some DEL, and is gone unless it is written in a round after such a one |
| `Scan.OnlyMatchesRemoved` | libs/redis/src/redis.service.ts:91-100 | No DEL of the loop takes out a key that does not match, whatever others do |
| `Scan.InvalidatesExactlyWithoutPrefix` | libs/redis/src/redis.module.ts:25 | Invalidation works, for any pattern that can match, exactly when the client's key prefix is empty |
| `Posts.PostsRepository.FindById` | libs/database/src/abstract.repository.ts:22-28 | The document with the id, or not found |
| `Posts.PostsRepository.FindOneAndUpdate` | libs/database/src/abstract.repository.ts:30-43 | The one document is patched and returned as it is now; without one nothing changes and the call rejects |
| `Posts.PostsRepository.SoftDelete` | libs/database/src/abstract.repository.ts:53-55 | Sets the deletion time and nothing else |
| `Posts.PostsRepository.Create` | libs/database/src/abstract.repository.ts:9-12 | Appends a document that passes the schema's checks, or rejects and changes nothing |
| `Posts.PostsService.Create` | apps/posts-service/src/posts/posts.service.ts:10-17 | Appends the document made of the schema's defaults, the user, and over both the data given, whatever it sets; or rejects if that fails the checks |
| `Posts.PostsService.Update` | apps/posts-service/src/posts/posts.service.ts:35-39 | Sets any fields of the one document to what the data says, unchecked, or rejects |
| `Posts.PostsService.Delete` | apps/posts-service/src/posts/posts.service.ts:41-45 | Soft deletion of the one document, or rejects |
| `Posts.PostsService.Like` | apps/posts-service/src/posts/posts.service.ts:47-55 | The liker added once and counted; for a liker already there nothing is written |
| `Posts.PostsService.Unlike` | apps/posts-service/src/posts/posts.service.ts:57-62 | The liker taken out and the rest counted; rejects without a document |
| `Posts.Find` | libs/database/src/abstract.repository.ts:22-28 | Finds a document with the id exactly when there is one |
| `Posts.RemovedMeans` | apps/posts-service/src/posts/posts.service.ts:59 | The filter takes out that user and nobody else, and repeats nobody |
| `Posts.AppliedToPost` | apps/posts-service/src/posts/posts.service.ts:10-62 | Exactly what any operation on the collection makes of a given post, which keeps its place |
| `Posts.FieldsFollowUpdates` | apps/posts-service/src/posts/posts.service.ts:35-39 | Over any serial run, author, title, content, images, tags and status are each what the last update that set it said, or what it was at first; likes, unlikes and deletions touch none; id and creation time never change |
| `Posts.CreatedDocument` | apps/posts-service/src/posts/posts.service.ts:10-17 | A creation in full: every field from the data, the given user or the schema's default; refused exactly for an empty required text or an unknown status |
| `Posts.AnswersWithPost` | apps/posts-service/src/posts/posts.service.ts:35-62 | Every operation on a post answers with the post as it then is, or with not found exactly when there is none, and then changes nothing |
| `Posts.LikersAfter` | apps/posts-service/src/posts/posts.service.ts:35-62 | One operation: who is a liker afterwards, and that the count stays right unless an update's data breaks it |
| `Posts.CountKeptExactly` | apps/posts-service/src/posts/posts.service.ts:35-39 | An update keeps the count right for every post exactly when it sets neither likes nor count, or both and to match |
| `Posts.LikesAreASet` | apps/posts-service/src/posts/posts.service.ts:35-62 | Over any serial run of all operations, a user is a liker exactly when the last like, unlike or update that says so says so; and with updates that keep counts right, the counter is the size of the set of likers |
| `Posts.DeletionOverRun` | apps/posts-service/src/posts/posts.service.ts:35-45 | Over any serial run, a post is deleted exactly when the last deletion, or update of `deletedAt`, left it so |
| `Posts.DeclaredLeavesDeleted` | apps/posts-service/src/posts/posts.controller.ts:56-70 | Updates of the fields the controller declares never undo a deletion |
| `PostRuns.LikesStayConsistent` | apps/posts-service/src/posts/posts.service.ts:47-62 | Under any interleaving of reads and write-backs, with creations and updates that do not set the likes, every stored post and every document in flight counts its likers right, repeats none, and lists only users who asked to like it |
| `PostRuns.StepConsistent` | apps/posts-service/src/posts/posts.service.ts:47-62 | Every step keeps this |
| `PostRuns.LastsExactlyWithoutStaleWrites` | apps/posts-service/src/posts/posts.service.ts:41-62 | A deletion, like or unlike lasts until someone asks otherwise exactly when no like or unlike that read the post before is still to write back a document without it |
| `PostRuns.LikeLost` | apps/posts-service/src/posts/posts.service.ts:47-55 | Two likes at once can leave one of them out |
| `PostRuns.DeletionUndone` | apps/posts-service/src/posts/posts.service.ts:41-55 | A like in flight while its post is deleted brings the post back |
| `PostRuns.SerialCall` | apps/posts-service/src/posts/posts.service.ts:47-62 | A like or unlike with nothing between its read and its write does what the serial operation does |
| `Listing.Filter` | apps/posts-service/src/posts/posts.repository.ts:14-39 | Holds exactly the posts of the collection the query selects |
| `Listing.Sort` | apps/posts-service/src/posts/posts.repository.ts:14-39 | Holds the same posts, each as often |
| `Listing.SortSorts` | apps/posts-service/src/posts/posts.repository.ts:17 | Newest first, for any posts |
| `Listing.FilterKeeps` | apps/posts-service/src/posts/posts.repository.ts:14-39 | Every selected post as often as it is in the collection, and the separate count is their number |
| `Listing.Find` | apps/posts-service/src/posts/posts.repository.ts:14-39 | A page: a slice of some newest-first sequence of exactly the selected posts, and their number |
| `Listing.ListingsAgree` | apps/posts-service/src/posts/posts.repository.ts:14-39 | Any two listings of a query have the same creation times in the same places |
| `Listing.ListingIsUnique` | apps/posts-service/src/posts/posts.repository.ts:14-39 | Every answer to a query agrees in its creation times and its total, which is its length; the answer is determined exactly when no two selected posts share a creation time |
| `Listing.WhatIsListed` | apps/posts-service/src/posts/posts.repository.ts:14-39 | Each listing in literals: not deleted, and by the author whatever the status, or published, or published with the tag; none created before a later one |
| `Listing.TagRefinesPublic` | apps/posts-service/src/posts/posts.repository.ts:23-39 | Ties included, the listings of a tag are exactly the public listings without the other posts, and the total is the number of posts left |
| `Listing.PagesShowListing` | apps/posts-service/src/posts/posts.repository.ts:14-39 | Paging a query, with ties ordered anew for each page: the creation times shown are those of the whole listing; the posts shown are all of them, once each, for every choice of orders exactly when no page ends between posts created at the same time; without ties it is the listing itself |
| `Listing.PagesRepeat` | apps/posts-service/src/posts/posts.repository.ts:14-39 | Where a page does end between such posts, orders with which the pages together are not the listing |
| `Listing.SoftDeleteIsPermanent` | apps/posts-service/src/posts/posts.service.ts:35-62 | After a deletion and any serial run, the post is on no page of any listing, and every total is that of the collection without it, exactly when no later update has set `deletedAt` to null |
| `Listing.DeclaredSoftDelete` | apps/posts-service/src/posts/posts.controller.ts:56-107 | With updates of the fields the controller declares, publishing included, that is always so |
| `Listing.PublishedIsListed` | apps/posts-service/src/posts/posts.controller.ts:98-107 | After an update that sets the status to published, a post that is not deleted is in every public listing and counts in its total |
| `Pagination.NormalizedIsStable` | libs/common/src/utils/pagination.util.ts:14-20 | Which page, limit, skip, field and direction come of every query: defaults for what is absent or 0, the nearest bound for what is out of range; and normalising again changes nothing |
| `Pagination.CeilingCovers` | libs/common/src/utils/pagination.util.ts:23 | `totalPages` is the least number of pages that covers the total |
| `Pagination.MetadataMeans` | libs/common/src/utils/pagination.util.ts:22-35 | The rest of the metadata: data, total, page and limit as given; `hasPrev` exactly when something lies before the page; the least positive number of pages that hold the total |
| `Pagination.SliceAt` | apps/posts-service/src/posts/posts.repository.ts:14-39 | Item k of a slice is item skip + k, and there are as many as there are, up to the limit |
| `Pagination.HasNextMeansMore` | libs/common/src/utils/pagination.util.ts:22-35 | `hasNext` holds exactly when something lies beyond this page |
| `Pagination.FollowingVisitsAll` | libs/common/src/utils/pagination.util.ts:14-35 | From page 1 it sees `totalPages` pages, and their data joined is the whole result |
| `Pagination.PagesReach` | libs/common/src/utils/pagination.util.ts:22-35 | `totalPages` is positive and that many pages reach to the end |

## Left out

Messaging

- NoMessageIsLost: the broker losing what it has taken in (a restart with transient messages), and publisher confirms, are not modelled.
- EveryMessageInOnePlace: asks for keys that reach at most one queue, no crash and no expiry; with any of these a message can have several copies at once, and only `NoMessageIsLost` and `RunsEnd` hold.
- ConsumeWithRetry: `ack`, `nack` and `publish` that throw, and fractional or infinite attempt headers.
- The order in which a queue delivers, prefetch, and `x-death` headers.
- Messages sent to the dead-letter exchange or the DLQ directly, consumers on the DLQ, and other names the broker reserves.
- Delays between retries: the source has none.

Cache

- CodecRoundTrip: object keys are distinct and keep their order (JavaScript moves integer-like keys to the front), integers are unbounded, negative zero is zero, other numbers are kept as their text, characters are code points where JavaScript has UTF-16 units, and `undefined` is not a value.
- IncrWithTtl: the 64-bit range of INCR.
- DeletePattern: the scan is one that ends and the promise of SCAN about keys that stay is assumed; the glob syntax of MATCH is a predicate.
- `ping`, `quit`, `getClient`, connection events.

Posts

- Create: `_id` and timestamps in the data, type casting, and `null` for fields other than `deletedAt`; `updatedAt` and `__v`.
- ListingIsUnique: nothing is written between the query for the items and the count.
- NormalizePagination: pages, limits and totals are integers.
- PagesShowListing: limits are positive; MongoDB reads limit 0 as no limit.
- `findOne` and `deleteOne`, which the posts service does not use, and the books, todos and users repositories, whose queries have the same shape.

Elsewhere

- The API gateway, authentication, guards, DTOs and configuration: wiring, tables and single branches.
- Notification strategies, the WebSocket gateway and the email worker: calls to systems that cannot be seen here. Their outcome is an input.
