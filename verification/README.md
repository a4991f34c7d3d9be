# Verified models of go-waku

A Dafny model of the parts of go-waku that keep state, take turns or encode
bytes, with proofs of what they promise. `dafny verify dfyconfig.toml` checks
everything.

| files | what they model |
|---|---|
| `ChatHistory`, `RollingBloom`, `ChatNode`, `ChatOutgoing`, `ChatDelivery`, `ChatReceive`, `ChatSystem`, `ChatProvenance`, `ChatEffects`, `ChatSweep`, `ChatTheorems`, `ChatExamples`, `Chat` | the causal chat protocol of `examples/chat2-reliable`: Lamport clock, causal history, buffer of messages that wait for dependencies, outgoing buffer with acknowledgements and bounded resends, sorted history of 100 messages, rolling bloom filter |
| `HistoryWindows`, `HistoryRetriever`, `HistoryTheorems`, `HistoryDeadlock`, `HistoryQuery` | the history retriever: batches of ten topics, windows of 24 hours, cursors, work queue, wait group and the three-slot semaphore |
| `StoreSql`, `StorePaging`, `StoreTheorems`, `MessageStore` | the message store: a history query compiled to SQL conditions with numbered parameters, and paging by cursor in both directions |
| `Payload` | version 1 payload framing, the ABNF and Padding sections of 26/WAKU2-PAYLOAD |
| `DiscoveryService`, `DiscoveryTheorems`, `DiscoveryCalls` | Start, Stop and PushToChan of a discovery service as interleaved steps |
| `ShardCodec`, `PubsubTopic`, `ShardTopics` | relay shards, their two wire forms (51/WAKU2-RELAY-SHARD), topic names and the grouping of topics |
| `NtpMedian` | the clock offset computed from several NTP answers |
| `GoTypes`, `Wrappers` | Go's fixed-width integers and byte strings, values that may be absent, and results that may be errors |

## How it is built

Objects that the source updates in place are classes (`Chat.Chat`,
`RollingBloom.RollingBloomFilter`, `MessageStore.DBStore`,
`PubsubTopic.StaticShardingPubsubTopic`). Each method is proved equal to a
function on values, loops included, and the properties are proved of those
functions over all inputs and all runs. The retriever and the discovery service
are state machines whose steps interleave in every possible way.

The chat system is any number of nodes and the set of all messages ever
created. Every handler is one atomic step of one node. A node also carries what
it has shown, what it has let in, and a journal of sends, acknowledgements and
drops, so that statements about whole runs are statements about states. Bloom
hashing is an arbitrary function to sets of bits, so false positives exist.
Each single request for a missing message has its own answer, any message of
that id in some other node's history or none, and time passes between requests.

Time, message ids, random padding, network outcomes, peers' answers, the order
in which Go gives the keys of a map, and the order in which goroutines take
turns are parameters or choices of the environment. Hashing, signing and
encryption are functions with one law each: decrypting undoes encrypting, and a
signature names its signer.

## What the code does not do

Some plausible statements are false of the code. The model keeps the code; a
lemma shows a failing case, and another says exactly when the statement holds.

- The Lamport clock is 32 bits wide. In a run the timestamps respect the causal
  histories exactly when every send gets a timestamp past the newest message of
  its node's history (`LamportOrderIff`); before any overflow that fails only
  with the clock at its maximum (`AdvancingIff`), and then two messages of one
  sender can get the same timestamp (`OverflowBreaksOrder`).
- A buffered message without content never satisfies a dependency. A run ends
  with every dependency of the buffer in the history or the buffer, and a
  message that stays for ever (`EmptyContentNeverSatisfies`). `SendMessage` takes
  any line; the terminal interface passes on only lines that are not empty
  (examples/chat2-reliable/ui.go:171-176), and then being in the buffer is enough
  (`SweepingContent`).
- An acknowledgement need not come from anybody else. A node lets in its own
  sync messages, which acknowledge what it sent itself (`SelfAcknowledged`); the
  acknowledger is another node exactly when the sender named in the message is
  (`AcknowledgedBy`).
- An id is forgotten by a clean exactly one window after it was added
  (`ForgottenAtWindow`); before that it is not (`NoFalseNegatives`).
- A history query can deadlock exactly when it asks for more than 10030 topics
  and either covers more than a day or meets a store that holds something
  (`DeadlockIff`): three consumers and the main loop then all wait for a full
  queue of 1000.
- Following cursors through the store yields the intended rows for every page
  size exactly when the statement selects them and (storedAt, id) advances along
  them (`PagingIff`). Messages without a timestamp break this: rows are sorted by
  the sender's timestamp and cursors compare the stored time, so a row can be
  lost (`ZeroTimestampBreaks`). So does one message on two pubsub topics, whose
  rows have the same (storedAt, id) (`TwoTopicsBreak`).
- The time bounds of a compiled query mean the inclusive range exactly when they
  fit the cursor and the end is not the greatest 64-bit number (`RangeExact`);
  with that end the statement selects nothing (`GreatestEndSelectsNothing`).
- A query for pages of no rows panics when a row matches (`Query`).
- Data of 2^24 bytes or more does not survive encoding, although
  26/WAKU2-PAYLOAD and the code allow a size field of four bytes: the fourth
  sets the signature flag (`RoundTripIff`, `LargeDataLost`). With a signing key,
  such data is also left unsigned and its padding does not reach a multiple of
  256 (`GeneratedPadding`).
- A push that overtakes the very first Start finds no context
  (`NilContextHappens`). One that overtakes a Start of a service that no Stop
  has closed waits on the channel lock that the Start needs (`JamIff`); in the
  first Start this lasts until the caller's own context ends
  (`FirstStartCanJam`). A Start whose work fails leaves its channel open and not
  flagged (`StartFails`), so the next Start can jam.
- A list of more than 255 shards is encoded with a wrong count and is rejected
  by the decoder (`ShardListRoundTrip`). A record with an id past 1023 panics in
  the bit vector (`BitVector`). A record without ids, which a bit vector of zeros
  decodes to, is lost by printing and regrouping (`RegroupedRecord`). Parsing the
  bare prefix "/waku/2/rs" panics (`ContainsTopic`).
- The comment on the bit vector calls shard 0 its right-most bit. In the code
  shard 0 is the lowest bit of the first byte (`OneShard`).
- The mean of the two middle NTP offsets can wrap around; the bound by a
  majority holds exactly when it does not (`MajorityIff`).

## Model

| member | source | states |
|---|---|---|
| `ChatTheorems.LamportOrderIff` | examples/chat2-reliable/reliability.go:95-112 | in every run of any number of nodes, every chat message has a greater timestamp than every message, chat or sync, in its causal history if and only if every send got a timestamp past the newest message of its node's history |
| `ChatTheorems.AdvancingIff` | examples/chat2-reliable/reliability.go:433-458 | while no clock has overflowed, a send gets such a timestamp if and only if its clock is not at the 32-bit maximum, or its history is empty, or the time in seconds is past the newest message |
| `ChatTheorems.NoOverflowKeepsOrder` | examples/chat2-reliable/reliability.go:433-439 | so a run in which no clock is at its maximum at a send is in order |
| `ChatTheorems.DependenciesListedFirst` | examples/chat2-reliable/reliability.go:271-301 | in every run whose sends advance, the sorted history of every node lists a dependency before the messages that depend on it |
| `ChatExamples.OverflowBreaksOrder` | examples/chat2-reliable/reliability.go:433-439 | a run of two sends with the clock at its maximum, after which a message and its dependency have equal timestamps |
| `ChatNode.IncrementIsStrict` | examples/chat2-reliable/reliability.go:433-458 | incrementing moves the clock strictly forward if and only if it was not at the 32-bit maximum; it never ends behind the time in seconds, and goes past the time by one step only |
| `ChatTheorems.CausalDelivery` | examples/chat2-reliable/reliability.go:137-200 | in every run each dependency of a shown message was shown earlier on the same node |
| `ChatTheorems.ConservedDelivery` | examples/chat2-reliable/reliability.go:137-200 | in every run the messages with content that passed the bloom filter are, as a multiset, exactly those shown plus those still buffered, so none is lost |
| `ChatTheorems.NoDoubleDelivery` | examples/chat2-reliable/reliability.go:137-143 | in every run an id that a node has shown twice was let in twice, at least a whole bloom window apart |
| `ChatTheorems.Convergence` | examples/chat2-reliable/reliability.go:271-301 | two nodes that have shown the same messages in different orders hold the same history, the greatest 100 of them in order |
| `ChatReceive.MissingAreFetched` | examples/chat2-reliable/reliability.go:137-174 | a receive of an unknown message asks for each dependency that the history lacks, and what one of the five attempts answers is let in before the receive ends |
| `ChatEffects.DependenciesRequested` | examples/chat2-reliable/reliability.go:235-253 | in every run, each such dependency is requested in the step, and its id is known afterwards unless all five attempts went unanswered |
| `ChatReceive.ReadyIsShown` | examples/chat2-reliable/reliability.go:153-164 | a message with nothing missing is shown next, nothing is requested, and the sweep that follows leaves exactly the buffered messages that are not ready |
| `ChatReceive.UnreadyIsHeld` | examples/chat2-reliable/reliability.go:165-173 | a message with something missing ends up last in the buffer |
| `ChatReceive.SeenIsIgnored` | examples/chat2-reliable/reliability.go:137-141 | a message that the filter knows changes nothing |
| `ChatReceive.ReceivedGoes` | examples/chat2-reliable/reliability.go:137-174 | through all recursion nothing shown, let in or written down is taken back, the message is the next one let in, and the clock ends at the greater of its start and the highest timestamp let in |
| `ChatReceive.ReceivedFewer` | examples/chat2-reliable/reliability.go:202-233 | through all recursion outgoing entries only leave, and none is left that the message acknowledges |
| `ChatReceive.MissingExactly` | examples/chat2-reliable/reliability.go:255-269 | exactly the dependencies that are not in the history are missing |
| `ChatReceive.SweepInOrder` | examples/chat2-reliable/reliability.go:176-200 | a sweep splits the buffer message by message and keeps the order of both parts |
| `ChatReceive.RecentAt` | examples/chat2-reliable/chat.go:576-585 | the recent ids are those of the last messages, newest first, as many as asked for or as there are |
| `ChatEffects.NothingTakenBack` | examples/chat2-reliable/reliability.go:95-174 | in every run what a node has shown, let in or written down stays in its place |
| `ChatTheorems.SweepingEmptiesBuffer` | examples/chat2-reliable/reliability.go:176-200 | in every run, whatever the clocks do, a node whose history has room for its buffer empties the buffer within one sweep per buffered message if and only if every dependency is in the history or buffered with content |
| `ChatTheorems.SweepingContent` | examples/chat2-reliable/reliability.go:176-200 | in every run in which no empty line was sent, the same holds if and only if every dependency is in the history or in the buffer |
| `ChatProvenance.DependencyBuiltFirst` | examples/chat2-reliable/reliability.go:95-112 | in every run the dependencies of a message were built in earlier steps than the message |
| `ChatSweep.SweepsEmptyIffObtainable` | examples/chat2-reliable/reliability.go:176-200 | the same for any state with room in the history and any order in which dependencies come first |
| `ChatSweep.UnobtainableWaits` | examples/chat2-reliable/reliability.go:182-192 | a message with a dependency that is neither in the history nor buffered with content is still buffered after any number of sweeps |
| `ChatExamples.EmptyContentNeverSatisfies` | examples/chat2-reliable/reliability.go:182-192 | a run of two nodes after which every dependency of every buffered message is in the history or the buffer, and one message stays buffered after any number of sweeps, because what it waits for has no content |
| `ChatTheorems.OutgoingAccounted` | examples/chat2-reliable/reliability.go:339-359 | in every run a queued message has at most five resends, all marked more than the timeout apart; it is in the buffer with that count, or was acknowledged by a message let in, or was dropped after exactly five resends and another timeout |
| `ChatTheorems.AcknowledgedBy` | examples/chat2-reliable/reliability.go:202-233 | in every run the message behind an acknowledgement was built by a node that had by then shown the acknowledged message, when the causal history names it, or whose bloom filter found its id; that node is another one if and only if the message carries another sender |
| `ChatEffects.SendIsTracked` | examples/chat2-reliable/reliability.go:95-135 | in every run a message that is sent enters the outgoing buffer and stays accounted for; the sender shows it if it was published, and shows nothing otherwise |
| `ChatEffects.SendMovesClock` | examples/chat2-reliable/reliability.go:95-135 | in every run each attempt to send, also one that fails, moves the clock strictly forward if and only if it was not at the 32-bit maximum, and the message carries the clock |
| `ChatEffects.SeenIsAcknowledged` | examples/chat2-reliable/reliability.go:202-233 | in every run a node that lets in a message no longer holds any outgoing entry whose message the builder had let in less than a bloom window before building |
| `ChatEffects.BuiltFromNode` | examples/chat2-reliable/reliability.go:95-112 | a message carries the filter of the node that built it, its name, and the ids of its ten newest messages |
| `ChatEffects.ClocksNearTime` | examples/chat2-reliable/reliability.go:433-445 | in every run no clock and no timestamp is ahead of the time by more than the number of sends so far |
| `ChatExamples.SelfAcknowledged` | examples/chat2-reliable/reliability.go:400-424 | a run of a single node whose own sync message acknowledges its message |
| `ChatOutgoing.AcksAreFilter` | examples/chat2-reliable/reliability.go:202-233 | the two removal loops with their index adjustment keep exactly the entries that are not acknowledged, in order |
| `ChatOutgoing.TickedTracked` | examples/chat2-reliable/reliability.go:339-359 | a tick keeps the account of all entries: attempts match the journal, entries leave only when settled |
| `ChatOutgoing.TickResends` | examples/chat2-reliable/reliability.go:339-359 | a tick leaves an entry that is not overdue, marks an overdue one as resent now with one attempt more, and drops it after the fifth |
| `ChatOutgoing.TickLeavesFresh` | examples/chat2-reliable/reliability.go:339-359 | after a tick no entry is overdue |
| `ChatTheorems.ReceiveBounded` | examples/chat2-reliable/reliability.go:137-174 | processing a message and fetching its dependencies recursively ends over every finite set of messages, whatever each single request is answered and whatever cycles are claimed, and lets in no more messages than it newly marks as seen |
| `ChatTheorems.FetchBounded` | examples/chat2-reliable/reliability.go:235-253 | the same bound for the loop that requests missing dependencies |
| `ChatSystem.RunKeeps` | examples/chat2-reliable/reliability.go:95-174 | the invariant behind these results holds in every state of every run of sends, syncs, receives, sweeps, ticks and cleans |
| `ChatHistory.HistoryIsGreatest` | examples/chat2-reliable/reliability.go:271-301 | after any additions the history is ascending by timestamp, ties by id, and is the greatest 100 of all messages added |
| `ChatHistory.GreatestUnique` | examples/chat2-reliable/reliability.go:271-301 | for distinct ids that description determines the history |
| `ChatHistory.ArrivalOrderIrrelevant` | examples/chat2-reliable/reliability.go:271-301 | the history is the same for every order of arrival |
| `RollingBloom.RememberedIffSurvives` | examples/chat2-reliable/rolling_bloom_filter.go:30-65 | after any additions and cleans exactly the additions that no later clean found a window old are remembered |
| `RollingBloom.TestsIff` | examples/chat2-reliable/rolling_bloom_filter.go:30-65 | after any additions and cleans an id tests true if and only if each of its bits is set by an addition that survived |
| `RollingBloom.NoFalseNegatives` | examples/chat2-reliable/rolling_bloom_filter.go:30-65 | under a monotone clock an id is found at every moment less than a window after its addition |
| `RollingBloom.ForgottenAtWindow` | examples/chat2-reliable/rolling_bloom_filter.go:48-65 | a clean exactly one window later forgets the id |
| `RollingBloom.RollingBloomFilter.constructor` | examples/chat2-reliable/rolling_bloom_filter.go:22-28 | a new filter remembers nothing |
| `RollingBloom.RollingBloomFilter.Add` | examples/chat2-reliable/rolling_bloom_filter.go:30-39 | adds the bits of the id and its time stamp, and changes nothing else |
| `RollingBloom.RollingBloomFilter.Test` | examples/chat2-reliable/rolling_bloom_filter.go:41-46 | answers whether all bits of the id are on |
| `RollingBloom.RollingBloomFilter.Clean` | examples/chat2-reliable/rolling_bloom_filter.go:48-65 | the loop keeps exactly the newer entries, in order, and rebuilds the bits from them |
| `Chat.Chat.constructor` | examples/chat2-reliable/chat.go:34-68 | a new node has an empty state |
| `Chat.Chat.SendMessage` | examples/chat2-reliable/reliability.go:95-135 | the whole new state of the node after a send, whatever its outcome |
| `Chat.Chat.ProcessReceivedMessage` | examples/chat2-reliable/reliability.go:137-174 | the whole new state after a receive with all the recursive fetches it causes, each with its own answer and time; the recursion ends; what that state is, is stated by the `ChatReceive` rows |
| `Chat.Chat.ProcessBufferedMessages` | examples/chat2-reliable/reliability.go:176-200 | one sweep shows every message that was ready at its start and keeps the rest in order |
| `Chat.Chat.ReviewAckStatus` | examples/chat2-reliable/reliability.go:202-233 | removal by causal history, then by the sender's filter, and the matching journal entries |
| `Chat.Chat.RemoveByIds` | examples/chat2-reliable/reliability.go:206-215 | the nested loop removes the first entry of each listed id |
| `Chat.Chat.RemoveByFilter` | examples/chat2-reliable/reliability.go:217-232 | the loop with a corrected index removes exactly the entries whose bits are all on |
| `Chat.Chat.RequestMissingMessages` | examples/chat2-reliable/reliability.go:166-169 | fetching each missing dependency in turn |
| `Chat.Chat.RequestMissingMessage` | examples/chat2-reliable/reliability.go:235-253 | the state after one request, with the answer processed like a received message |
| `Chat.Chat.AskPeers` | examples/chat2-reliable/reliability.go:235-253 | the first answer in five attempts, or none when all five have none |
| `Chat.Chat.CheckCausalDependencies` | examples/chat2-reliable/reliability.go:255-269 | the dependencies that are not in the history, in order |
| `Chat.Chat.AddToMessageHistory` | examples/chat2-reliable/reliability.go:271-301 | the search loop inserts at the sorted position and trims the oldest beyond 100 |
| `Chat.Chat.CheckUnacknowledgedMessages` | examples/chat2-reliable/reliability.go:339-359 | the loop with in-place updates and removals is one tick of every entry, in order |
| `Chat.Chat.SendSyncMessage` | examples/chat2-reliable/reliability.go:400-424 | a sync message without content, with the current clock and history |
| `Chat.Chat.IncLamportTimestamp` | examples/chat2-reliable/reliability.go:433-439 | the greater of the time in seconds and the clock plus one, both cut to 32 bits |
| `Chat.Chat.UpdateLamportTimestamp` | examples/chat2-reliable/reliability.go:441-445 | the greater of the clock and the timestamp received |
| `Chat.Chat.GetRecentMessageIDs` | examples/chat2-reliable/chat.go:576-585 | the backward loop lists the ids of the newest entries, newest first |
| `HistoryWindows.MakeBatches` | waku/v2/api/history/history.go:94-118 | the producer's loop yields the topics in order in batches of ten |
| `HistoryWindows.ChunkCount` | waku/v2/api/history/history.go:94-95 | the number of batches, which the wait group is raised by, is the number of topics over ten, rounded up |
| `HistoryWindows.OneBatchPerTopic` | waku/v2/api/history/history.go:97-118 | a requested topic is in exactly one batch, any other in none |
| `HistoryWindows.WindowCountClosed` | waku/v2/api/history/history.go:168-179 | the number of windows is one, or the range over 24 hours rounded up |
| `HistoryWindows.VisitsClosed` | waku/v2/api/history/history.go:168-220 | a time in range lies in one window, or in two when it is a whole number of days before the end and inside the range |
| `HistoryTheorems.HandedOverExactly` | waku/v2/api/history/history.go:155-224 | when the wait group is at zero and the callback never stopped, every matching stored message was handed over once, those on a window edge twice, and no other message at all, in every interleaving |
| `HistoryTheorems.NeverTooOften` | waku/v2/api/history/history.go:190-223 | whatever the callback says, no message is ever handed over more often than that; and after it says stop, not at all for that batch (`StopIsFinal`) |
| `HistoryTheorems.StopIsFinal` | waku/v2/api/history/history.go:190-223 | in every run, once the callback says stop after a page, no message of any topic of that batch is handed over again |
| `HistoryRetriever.StopTotal` | waku/v2/api/history/history.go:196-198 | such a page takes its work item out of the account, for every way of weighing work |
| `HistoryRetriever.QueueInOrder` | waku/v2/api/history/history.go:130-159 | work is taken in the order in which it was queued |
| `HistoryTheorems.Terminates` | waku/v2/api/history/history.go:130-233 | every run has at most as many steps as a measure of its first state |
| `HistoryTheorems.OneItemPerBatch` | waku/v2/api/history/history.go:210-223 | at every moment each batch has at most one unfinished work item |
| `HistoryTheorems.WaitGroupSound` | waku/v2/api/history/history.go:120-123 | the wait group is never negative; at zero nothing is unproduced, queued, held or in flight and only cleaning up is possible, so it stays there; and the queue never holds more than one item per batch |
| `HistoryTheorems.PageOwed` | waku/v2/api/history/history.go:181-223 | a page and the work queued after it together owe exactly what the work item owed |
| `HistoryDeadlock.NoDeadlock` | waku/v2/api/history/history.go:71-74 | every reachable state that is not complete has a possible step, with at most 10030 topics or with requests that leave no work behind |
| `HistoryDeadlock.DeadlockIff` | waku/v2/api/history/history.go:140-159 | any query can reach a state without any step if and only if it asks for more than 10030 topics and covers more than a day or meets a store that holds something |
| `HistoryQuery.FollowUp` | waku/v2/api/history/history.go:168-223 | the work a consumer queues after its page: the same window with the cursor, the next window, or none |
| `HistoryQuery.Query` | waku/v2/api/history/history.go:51-240 | under every scheduler a query that cannot deadlock and whose callback continues completes, having handed over exactly the matches |
| `StoreSql.PlaceholdersInOrder` | waku/persistence/store.go:390-445 | read from left to right the statement uses parameter 1, 2, 3 and so on, each once, the last one being the limit of one row more than the page |
| `StoreSql.CompiledMeans` | waku/persistence/store.go:390-445 | the compiled conditions with their parameters select exactly the rows that pass the pubsub topic, content topics, cursor and both time bounds |
| `StoreSql.RangeExact` | waku/persistence/store.go:341-388 | the bounds that are kept or dropped beside a cursor mean the inclusive range beyond the cursor for every row, if and only if they fit the cursor |
| `StoreSql.CompiledIsIntended` | waku/persistence/store.go:390-445 | then the statement selects exactly the intended rows |
| `StoreTheorems.PagingIff` | waku/persistence/store.go:448-501 | for every query, from the start or from a cursor: following the returned cursors ends, and yields exactly the intended rows, each once and in order, for every page size, if and only if the statement selects them on this table and (storedAt, id) advances strictly along them; an unknown cursor is refused |
| `StoreTheorems.PagingSelectedIff` | waku/persistence/store.go:448-501 | following the cursors yields what the first statement selects for every page size if and only if (storedAt, id) advances along that |
| `StoreTheorems.GreatestEndSelectsNothing` | waku/persistence/store.go:381-386 | an end at the greatest 64-bit time wraps around and nothing is selected |
| `StoreTheorems.PagingRefinesSort` | waku/persistence/store.go:433-501 | with timestamps, distinct keys and bounds that fit, forward pages concatenated and backward pages prepended, from the start or from a cursor, both equal the filtered table sorted from oldest to newest |
| `MessageStore.ZeroTimestampBreaks` | waku/persistence/store.go:318-321 | of two stored messages, one sent without a timestamp and received later, paging one row at a time returns only that one |
| `MessageStore.TwoTopicsBreak` | waku/persistence/store.go:341-366 | of the rows of one message on two pubsub topics, which have the same key, paging one row at a time returns only the first |
| `StorePaging.CursorAdvances` | waku/v2/protocol/envelope.go:21-34 | the cursor rebuilt from the last row of a page leaves fewer rows to visit |
| `StorePaging.NamesIff` | waku/persistence/store.go:341-366 | a cursor names a row if and only if the row is neither before nor after it |
| `StorePaging.IndexNames` | waku/v2/protocol/envelope.go:21-53 | the cursor rebuilt from a stored row names that row, and carries its sender time and topic |
| `StorePaging.RowLessTotal` | waku/persistence/store.go:433-445 | the order of a page decides between any two rows that differ in one of its four columns |
| `MessageStore.StoredIsRetrieved` | waku/persistence/store.go:310-339 | what is stored comes back with its topics, payload, timestamp and version, with its timestamp as receiver time or the time it was received, and under the hash of its envelope |
| `MessageStore.DBStore.Put` | waku/persistence/store.go:310-339 | appends the row, keyed by receiver time when there is no timestamp, unless the hash is taken; afterwards the hash is there, and hashes stay distinct |
| `MessageStore.DBStore.PrepareQuerySQL` | waku/persistence/store.go:390-445 | refuses a cursor that names no row, and otherwise builds the specified statement with its parameter counter |
| `MessageStore.DBStore.TopicConditions` | waku/persistence/store.go:401-418 | the conditions for pubsub topic and content topics |
| `MessageStore.DBStore.CursorConditions` | waku/persistence/store.go:341-388 | the conditions for cursor and time bounds |
| `MessageStore.DBStore.ReversePage` | waku/persistence/store.go:493-498 | swapping ends inward reverses the page |
| `MessageStore.DBStore.Query` | waku/persistence/store.go:448-501 | the page in order of time, and a cursor exactly when a row was left over; a panic for a page of no rows when a row matches |
| `Payload.RoundTrip` | waku/v2/payload/waku_payload.go:308-429 | data below 2^24 bytes, signed or not, padded by the caller or not, comes back with its padding, its signer, and the very signature that was made of the rest of the plaintext |
| `Payload.RoundTripIff` | waku/v2/payload/waku_payload.go:341-429 | framing and parsing give the data back if and only if it is below 2^24 bytes |
| `Payload.LargeDataLost` | waku/v2/payload/waku_payload.go:341-358 | larger data never comes back, and from 2^32 bytes on framing panics |
| `Payload.ParseSplits` | waku/v2/payload/waku_payload.go:387-429 | every byte string the parser accepts is flags, size, data, padding and signature put together, with agreeing lengths |
| `Payload.ParseAssembled` | waku/v2/payload/waku_payload.go:387-429 | agreeing parts put together parse to those parts |
| `Payload.GeneratedPadding` | waku/v2/payload/waku_payload.go:362-385 | generated padding has 1 to 256 bytes, all taken from the random source; it makes the plaintext a multiple of 256 if and only if there is no signing key or the data is below 2^24 bytes |
| `Payload.DecryptUndoesEncrypt` | waku/v2/payload/waku_payload.go:176-247 | with matching keys decryption, which finds the nonce at the end, undoes encryption |
| `Payload.DecodeEncodeIff` | waku/v2/payload/waku_payload.go:55-154 | in both supported versions decoding what was encoded gives the data back if and only if the version is 0 or the data is below 2^24 bytes, and then with the padding, signature and signer; when there is something to decode is stated by `EncodeOkIff` |
| `Payload.EncodeOkIff` | waku/v2/payload/waku_payload.go:55-91 | encoding succeeds if and only if the version is 0, or it is 1, the data is below 2^32 bytes, padding is given or can be drawn, the flagged frame can be signed where it is signed at all, and the key encrypts |
| `Payload.DecodeOkIff` | waku/v2/payload/waku_payload.go:111-154 | decoding succeeds if and only if the version is 0, or it is 1 and the key opens the payload to something that parses |
| `Payload.ParseOkIff` | waku/v2/payload/waku_payload.go:387-429 | the parser accepts exactly the agreeing parts put together, with a signer that can be recovered when they are signed |
| `Payload.FieldHolds` | waku/v2/payload/waku_payload.go:341-358 | the size field of the computed width holds the size |
| `Payload.BuildV1Data` | waku/v2/payload/waku_payload.go:330-385 | the buffer built step by step is flags, size, data and padding |
| `Payload.GetSizeOfPayloadSizeField` | waku/v2/payload/waku_payload.go:352-358 | the loop counts the bytes of the size |
| `Payload.BytesToUintLittleEndian` | waku/v2/payload/waku_payload.go:445-452 | the loop reads a little-endian number |
| `Payload.ValidateAndParse` | waku/v2/payload/waku_payload.go:387-429 | the parser with its running end and offset is the specified split |
| `DiscoveryTheorems.NoChannelFault` | waku/v2/service/common_discovery_service.go:35-80 | in every interleaving of any number of calls, with restarts and failing start functions, no push sends on a closed channel, no channel is closed twice or while nil, everything was sent on a channel open at that moment, and a call that returned reports true if and only if it sent |
| `DiscoveryCalls.CycleWorks` | waku/v2/service/common_discovery_service.go:35-80 | from every state in which a stopped service is at rest, a Start, a push and a Stop send exactly one value on a new channel, report it, and leave the service stopped and at rest with that channel closed and flagged, its context cancelled and no fault |
| `DiscoveryCalls.StartFails` | waku/v2/service/common_service.go:29-43 | a Start whose work fails leaves the service stopped with its context cancelled, and its channel open and not flagged |
| `DiscoveryCalls.IdleCalls` | waku/v2/service/common_service.go:32-54 | a Start of a running service, a Stop of a stopped one and a push to a stopped one change nothing |
| `DiscoveryCalls.RunFollows` | waku/v2/service/common_discovery_service.go:35-57 | no run reopens a channel or revives a context |
| `DiscoveryCalls.ClosedIsFinal` | waku/v2/service/common_discovery_service.go:67-79 | no run sends on a channel after it was closed, whatever later Starts do |
| `DiscoveryTheorems.ExecuteKeeps` | waku/v2/service/common_service.go:29-67 | every run of every number of calls keeps mutual exclusion and what each call knows at its place |
| `DiscoveryTheorems.NilContextOnlyInFirstStart` | waku/v2/service/common_service.go:35-36 | a push finds no context only while the very first Start stands between marking the service started and creating the context |
| `DiscoveryTheorems.NilContextHappens` | waku/v2/service/common_discovery_service.go:74-79 | an interleaving in which it does |
| `DiscoveryTheorems.NoFaultOnceThereIsAContext` | waku/v2/service/common_discovery_service.go:61-80 | once there is a context no step faults any more |
| `DiscoveryTheorems.StopIsNotStuck` | waku/v2/service/common_discovery_service.go:47-57 | while a Stop is under way and nobody receives, the Stop itself can move, or the holder of the service lock, or the holder of the channel lock, unless a Start and a push have jammed |
| `DiscoveryTheorems.JamIff` | waku/v2/service/common_discovery_service.go:39-42 | from every resting state of a stopped service, a Start overtaken by a push jams if and only if the channel flag does not say closed |
| `DiscoveryTheorems.JamNeedsUnclosed` | waku/v2/service/common_discovery_service.go:67-72 | a jam needs a channel that no Stop has closed |
| `DiscoveryTheorems.JamIsForever` | waku/v2/service/common_discovery_service.go:74-79 | in a jam over a nil channel no later Stop gets past its first step, whatever is called and whatever other contexts end, until the context that the push watches ends |
| `DiscoveryTheorems.FirstStartCanJam` | waku/v2/service/common_discovery_service.go:35-45 | the first Start can reach that state |
| `ShardCodec.NewRelayShards` | waku/v2/protocol/shard.go:32-51 | rejects ids past 1023 and the empty list, and otherwise keeps each id once |
| `ShardCodec.BitVector` | waku/v2/protocol/shard.go:180-196 | setting bits id by id in the buffer gives the vector defined byte by byte; an id past 1023 panics |
| `ShardCodec.FromBitVector` | waku/v2/protocol/shard.go:199-218 | rejects other lengths than 130; the two loops list the ids whose bit is on, ascending |
| `ShardCodec.BitVectorRoundTrip` | waku/v2/protocol/shard.go:180-218 | decoding an encoded record gives its cluster and its ids, ascending and without repeats |
| `ShardCodec.FromBitVectorValid` | waku/v2/protocol/shard.go:199-218 | every 130-byte buffer decodes, and to ids of at most 1023 |
| `ShardCodec.BitVectorOnto` | waku/v2/protocol/shard.go:180-218 | every 130-byte buffer is the encoding of what it decodes to |
| `ShardCodec.BitVectorInjective` | waku/v2/protocol/shard.go:180-196 | two records have the same encoding if and only if they have the same cluster and set of ids |
| `ShardCodec.OneShard` | waku/v2/protocol/shard.go:180-196 | the vector of a single shard is zero except for byte id / 8 from the front, which is 2 to the power of id % 8 |
| `ShardCodec.NetworkOrder` | waku/v2/protocol/shard.go:138-148 | encoded 16-bit numbers compare byte by byte from the front as the numbers do |
| `ShardCodec.SetBitSets` | waku/v2/protocol/shard.go:170-178 | setting a bit turns on that bit and no other |
| `ShardCodec.ShardList` | waku/v2/protocol/shard.go:138-148 | cluster, number of ids cut to a byte, and the ids in network byte order |
| `ShardCodec.FromShardList` | waku/v2/protocol/shard.go:150-168 | rejects short buffers and wrong lengths, and otherwise makes a record of the ids read |
| `ShardCodec.ShardListRoundTrip` | waku/v2/protocol/shard.go:138-168 | what comes back from an encoded list, for every record: the same cluster and set for 1 to 255 valid ids, and one particular error in every other case |
| `PubsubTopic.PrintBack` | waku/v2/protocol/pubsub_topic.go:68-107 | parsing a printed topic gives back its cluster and shard |
| `PubsubTopic.ParsesIff` | waku/v2/protocol/pubsub_topic.go:73-107 | a string parses to a cluster and shard if and only if it is the prefix, any one character, decimal digits, a slash and decimal digits of those numbers |
| `PubsubTopic.ParseErrors` | waku/v2/protocol/pubsub_topic.go:73-107 | for every string, which of the errors it gives |
| `PubsubTopic.StaticShardingPubsubTopic.Parse` | waku/v2/protocol/pubsub_topic.go:73-107 | each error in its place, and the receiver unchanged on any of them |
| `PubsubTopic.ParseUint16` | waku/v2/protocol/pubsub_topic.go:88-91 | accepts exactly the nonempty digit strings of value below 2^16 |
| `ShardTopics.ContainsAnyShard` | waku/v2/protocol/shard.go:61-76 | true exactly when the cluster agrees and an id is in both lists |
| `ShardTopics.ContainsTopic` | waku/v2/protocol/shard.go:130-136 | accepts a string exactly when it parses to a member; the bare prefix panics |
| `ShardTopics.Topics` | waku/v2/protocol/shard.go:53-59 | the printed topics of a record, in order |
| `ShardTopics.TopicsToRelayShards` | waku/v2/protocol/shard.go:90-128 | the first parse error, or an error for a shard past 1023, or one record per cluster that holds exactly the shards parsed |
| `ShardTopics.Regrouped` | waku/v2/protocol/shard.go:53-128 | printing the topics of any records and grouping them again succeeds if and only if no id is past 1023, and then gives the same shards of the same clusters, in one record for each cluster that has any |
| `ShardTopics.RegroupedRecord` | waku/v2/protocol/shard.go:53-128 | when clusters are distinct and ids at most 1023, a record comes back with its set of ids if and only if it is not empty; when none is empty there are as many records as before |
| `NtpMedian.ComputeOffset` | waku/v2/timesource/ntp.go:66-116 | collecting the answers one by one computes the specified offset |
| `NtpMedian.FailsIff` | waku/v2/timesource/ntp.go:103-107 | the computation fails if and only if more servers failed than allowed, or all of them did; without servers the offset is zero |
| `NtpMedian.ArrivalOrderIrrelevant` | waku/v2/timesource/ntp.go:87-115 | the offset depends on the number of servers and the multiset of successful answers only |
| `NtpMedian.MajorityBounds` | waku/v2/timesource/ntp.go:108-115 | when more than half of the successful answers lie in [lo, hi], so does the offset, for odd and even counts, if the sum of the middle two does not wrap |
| `NtpMedian.MajorityIff` | waku/v2/timesource/ntp.go:108-115 | that bound holds for all ranges if and only if the sum of the middle two does not wrap |
| `NtpMedian.EvenIsMean` | waku/v2/timesource/ntp.go:108-115 | with an even number of answers whose middle sum does not wrap, the offset is the mean of the middle two, cut toward zero |
| `NtpMedian.WrapLeavesTheRange` | waku/v2/timesource/ntp.go:111-114 | two servers agreeing on a huge offset give one of the other sign |

## Left out

- Libp2p hosts, gossipsub, discv5, DNS discovery, ENR handling, peer selection and pruning: network clients and libraries that are not part of this model.
- AES-GCM, ECIES, ECDSA, SHA256 and bloom hash internals: functions with one law each.
- SQL engines, migrations, retention and metrics: only the meaning of the queries on a table is modelled; rows that tie in every ORDER BY column keep their insertion order.
- DBStore.Validate: it compares a timestamp with bounds built from itself.
- The Postgres syntax error for a content topic list of empty strings only: the model gives it no rows.
- Data races inside `SendMessage`: handlers of a chat node are atomic.
- Failing or cancelled history queries: goroutines may stay blocked after the first error, so only runs without errors are claimed.
- The filter manager, command line, REST, bindings, terminal UI and generated protobuf code.
- The recovery from a panic inside signature recovery, which the payload parser turns into a missing key.
- Chat.Chat.ProcessReceivedMessage: a receive is one step of the system although it may wait for answers; peers' answers come from a finite set of messages.
- Chat.Chat.SendSyncMessage: the timer that sends it, and its failure to be published, are not modelled.
- HistoryTheorems.HandedOverExactly: the page size is chosen by the store node, which answers faithfully and in a fixed order; the difference of end and start is taken not to overflow 64 bits.
- StoreTheorems.PagingIff: the table does not change between pages.
- DiscoveryTheorems.StopIsNotStuck: the wait for the service's own goroutines is taken to end.
- DiscoveryCalls.IdleCalls: the error that a Start returns is not modelled.
- NtpMedian.ComputeOffset: Go's library sort is the function `Sorted`, on values.
