# Verified model of the Redis client, codecs and call server of nas-third-party

The project models the parts of the repository whose correctness rests on state kept between calls, and
proves what they promise over every input, every way of cutting a byte stream and every run.

- **Redis protocol** (`Bytes`, `Resp`, `BuilderSpec`, `BuilderLaws`, `ReplyStream`, `Builders`,
  `ReplyBuilders`, `WireFormat`). `Resp` has the RESP2 encoding and a plain recursive parser. `BuilderSpec` and
  `ReplyStream` have the incremental builders as functions on values; their laws are proved there. `Builders`
  and `ReplyBuilders` have the objects that update their fields and erase from a shared buffer, each method
  proved to compute those functions. Main results: the incremental builder refines the plain parser for every
  chunking, nested replies round-trip, malformed input is sticky. `WireFormat` spells the protocol out in byte
  literals, apart from these definitions, and proves that exactly those bytes are read and printed.
- **Connection and pipelining** (`Connection`, `Pipeline`, `PipelineProgress`, `Sentinels`). The send buffer is
  uniquely decodable; a state machine of client, server and both byte streams, garbled input and lost
  connections included, hands the k-th reply to the k-th callback exactly when a connection starts with nothing
  left over, and on such a connection that is not garbled every run can be continued to where every command is
  answered and every callback run; the callback queue and the counter under the mutex make `sync_commit` safe in every interleaving, and its wait can always end.
- **Subscriber** (`Subscriptions`, `SubscriberRuns`, `Subscribers`). The subscription maps, the reconnect loop
  and its outcome, the agreement between the maps and what a server has been told, over every run, and what is
  remembered over every run: the last password, name, options and callbacks given, and the greeting in bytes.
- **Blowfish and Base64** (`BlowfishSpec`, `BlowfishLaws`, `Blowfish`, `Base64Spec`, `Base64Laws`, `Base64`,
  `StringEncryption`). The cipher as functions with its inverse laws, its published form, the law of each S-box,
  of the key bytes and of the schedule; the in-place key schedule and block loops; the table-driven Base64 codec
  with its overlapping word stores as a refinement of section 4 of RFC 4648; the string encryption built from
  both.
- **gRPC call objects** (`GrpcCalls`, `CallProgress`). Objects, their outstanding continuations and the event loop
  as a state machine, with the code of the source as methods that perform its steps; safety over every run, and
  a way to completion from every state of one.
- **Paths** (`Paths`, `FreshNames`). The cached protection check against the direct one, and the search for a
  name that does not exist.

`Common` holds the option type and machine constants. Nothing is assumed: time, the network, user callbacks,
thread scheduling and the order of map iteration are parameters or steps of a run.

Several promised properties turn out to hold only on a condition, and the exact condition is proved as an
if-and-only-if: `StringRoundTrip` (trailing zero bytes), `EncodeDecode` (unused bits of the last symbol),
`CommitAgrees` and `DisconnectAgrees` (commands lost while not connected, maps kept on an explicit disconnect),
`DropAgrees` (a master lookup that throws lets the exception escape from the drop handler, after which
`StuckAfterThrow` holds), `FifoRestarts` (replies and callbacks left over from a lost connection),
`OneWaiterPerMethod` (a failed request event costs its method the waiting object; a failed `Finish` event does
not), `CacheAgrees` and `CacheAgreesEx` (profile directories), `OutputLengthFits` and `DecodeLengthFits` (32-bit
wrap-around). `TrailingZeroIsLost`, `TwoTextsOneByte`, `LostSubscription`, `LostByDrop`, `OldReplyIsDelivered`,
`OldCallbackIsCalled`, `AnswerToOldCallback`, `GarbledBehindReply`, `NobodyWaits`, `NestedProfiles`,
`ProtectedInsideProfile`, `OutputLengthWraps` and `DecodeNeverEnds` give inputs or runs on the failing side.
The comment of `Encode` and `Decode` asks for a buffer length that is a multiple of 8; the code needs room for
the padded length, and the model follows the code.

How to read a chain of results: a method's `ensures` ties an object to a function on values, for example
`ReplyBuilder.Feed` to `FeedChunk`; the lemmas about that function (`ChunkingNeverMatters`,
`IncrementalIsPlain`) then hold of the object.

## Model

| member | source | states |
|---|---|---|
| Bytes.FindCrlf | cpp_redis/sources/builders/simple_string_builder.cpp:39-40 | the first end-of-line sequence, or none: nothing before it matches, and `None` means that no position matches |
| Bytes.FindCrlfExtends | cpp_redis/sources/builders/simple_string_builder.cpp:39-40 | an end of line once found does not move when bytes arrive behind it |
| Bytes.DecimalRoundTrip | cpp_redis/sources/network/redis_connection.cpp:114-122 | the decimal numerals printed into commands denote the number they were printed from |
| Bytes.Narrowing | cpp_redis/sources/builders/bulk_string_builder.cpp:56 | narrowing to 64 or 32 bits changes a number by a multiple of the width, so with its range it is two's complement |
| Resp.ScanEncodedInt | cpp_redis/sources/builders/integer_builder.cpp:38-68 | the digit loop, in 64-bit arithmetic, reads every printed integer of absolute value below 2^63 back without error |
| Resp.RoundTrip | cpp_redis/sources/builders/array_builder.cpp:60-93 | parsing the encoding of any nested reply followed by any bytes gives exactly that reply and leaves exactly those bytes |
| Resp.NullArray | cpp_redis/sources/builders/array_builder.cpp:46-55 | every negative array size above -2^63 is read as the null reply |
| Resp.StreamRoundTrip | cpp_redis/sources/builders/reply_builder.cpp:34-69 | a concatenation of encoded replies is read as exactly those replies with nothing left |
| Resp.EncodeAllInjective | cpp_redis/sources/builders/reply_builder.cpp:34-69 | no two sequences of encodable replies share a byte string |
| BuilderSpec.CreateBuilder | cpp_redis/sources/builders/builders_factory.cpp:36-53 | the bytes 43, 45, 58, 36 and 42, and no others, have a builder: a line, an error, an integer, a bulk string and an array, unfinished and well formed |
| BuilderSpec.FeedRows | cpp_redis/sources/builders/array_builder.cpp:60-93 | progress: the nested row loop ends, takes bytes from the front only, strictly shrinks the buffer when it completes, and a failed call never leaves a finished array |
| BuilderSpec.RowStep | cpp_redis/sources/builders/array_builder.cpp:60-93 | one turn of the row loop: a finished row is appended and the loop goes on with strictly fewer bytes, an unfinished one is kept |
| BuilderLaws.IntSplit | cpp_redis/sources/builders/integer_builder.cpp:38-68 | feeding an integer builder `x + y` is feeding `x` and, if it neither finished nor failed, `y` after it |
| BuilderLaws.BulkSplit | cpp_redis/sources/builders/bulk_string_builder.cpp:47-92 | the same for a bulk string builder, across its size line, its body and its end sequence |
| BuilderLaws.FeedSplit | cpp_redis/sources/builders/array_builder.cpp:37-93 | the same for every builder, arrays nested to any depth included |
| BuilderLaws.FreshBulkAgrees | cpp_redis/sources/builders/bulk_string_builder.cpp:47-92 | a new bulk builder gives the reply, the rest or the error of the plain parser, or waits exactly when that parser is short of bytes |
| BuilderLaws.FreshAgrees | cpp_redis/sources/builders/builders_factory.cpp:36-53 | the same for the builder of every type byte |
| BuilderLaws.RowsAgree | cpp_redis/sources/builders/array_builder.cpp:60-93 | from a row boundary on, the row loop is the plain parse of the missing rows |
| BuilderLaws.ScanBadAgain | cpp_redis/sources/builders/integer_builder.cpp:47-61 | a line with a bad character is bad again when scanned from whatever number and sign the first scan left behind |
| BuilderLaws.FaultPoisons | cpp_redis/sources/builders/array_builder.cpp:60-78 | a call that throws leaves the builder and the buffer in a state that is bound to throw |
| BuilderLaws.PoisonedStays | cpp_redis/sources/builders/bulk_string_builder.cpp:65-78 | such a state throws again whatever bytes are added, and stays such a state |
| ReplyStream.Drain | cpp_redis/sources/builders/reply_builder.cpp:34-69 | progress of `while (build_reply())`: it ends, never drops a finished reply, and every new reply strictly shrinks the buffer, of which a suffix is left |
| ReplyStream.ChunkingNeverMatters | cpp_redis/sources/builders/reply_builder.cpp:34-69 | from any state, feeding `a` then `b` gives the same buffer, nested partial builders, replies and error as feeding `a + b`; an error in `a` is an error of `a + b` in the same place |
| ReplyStream.AnySplit | cpp_redis/sources/builders/reply_builder.cpp:34-41 | every way of cutting a byte string into chunks gives the replies, error, partial builder and (without error) the whole state of one feed |
| ReplyStream.DrainParses | cpp_redis/sources/builders/reply_builder.cpp:49-69 | from a reply boundary on, the drain loop is the plain parse of the stream, errors included |
| ReplyStream.StreamConserves | cpp_redis/sources/builders/reply_builder.cpp:49-69 | the pending bytes are exactly what stands behind the complete replies |
| ReplyStream.PendingHasNoReply | cpp_redis/sources/builders/reply_builder.cpp:49-69 | the pending bytes hold no complete reply |
| ReplyStream.IncrementalIsPlain | cpp_redis/sources/builders/reply_builder.cpp:34-69 | refinement: for every chunking, the incremental builder yields exactly the replies of the plain recursive parser on the concatenation, fails exactly when it fails, and otherwise holds what the bytes after the last complete reply determine |
| ReplyStream.BytesConserved | cpp_redis/sources/builders/reply_builder.cpp:34-69 | the unread buffer is a tail of everything fed, over any number of feeds |
| ReplyStream.ErrorsAreSticky | cpp_redis/sources/builders/reply_builder.cpp:49-69 | once a feed throws, every later feed before a reset throws again and appends no reply |
| ReplyStream.ResetRestarts | cpp_redis/sources/builders/reply_builder.cpp:43-47 | after a reset the parser reads any input as a new one would, behind the replies already finished |
| ReplyStream.IncrementalRoundTrip | cpp_redis/sources/builders/reply_builder.cpp:34-69 | encoded replies followed by anything, cut anywhere: exactly those replies come out first and the rest is read as if it stood alone |
| ReplyStream.PrefixParses | cpp_redis/sources/builders/reply_builder.cpp:34-69 | a prefix of an encoded sequence raises no error and yields a prefix of the sequence |
| WireFormat.PrintsNumeral | cpp_redis/sources/network/redis_connection.cpp:114-122 | a printed number is the decimal numeral of it, without leading zeros |
| WireFormat.NumeralUnique | cpp_redis/sources/network/redis_connection.cpp:114-122 | and there is no other such numeral |
| WireFormat.ReadsMessage | cpp_redis/sources/builders/builders_factory.cpp:36-53 | in byte literals, for any nesting: 43, a line, 13 10 is read as a string; 45 as an error; 58 and a signed numeral as an integer; 36 and a numeral as a bulk string of that length or, with -1, as null; 42 and a numeral as an array of that many messages or, with a negative one, as null; what follows is left |
| WireFormat.ReadsStream | cpp_redis/sources/builders/reply_builder.cpp:34-69 | the incremental builder reads every sequence of such messages, however it is cut into chunks, as exactly their meanings, with nothing left |
| WireFormat.UnknownType | cpp_redis/sources/builders/builders_factory.cpp:51-53 | any other first byte is an error at once, and none of the five is |
| WireFormat.BadNumber | cpp_redis/sources/builders/integer_builder.cpp:47-61 | a number line is refused if and only if some character is neither a digit nor a leading minus |
| WireFormat.BadEnding | cpp_redis/sources/builders/bulk_string_builder.cpp:65-78 | a bulk string whose body is not followed by 13 10 is refused |
| WireFormat.PrintsMessage | cpp_redis/sources/network/redis_connection.cpp:114-122 | the encoding of a reply is the spelling, in those byte literals, of a message that means it |
| Builders.SimpleStringBuilder.Feed | cpp_redis/sources/builders/simple_string_builder.cpp:34-49 | the object's fields and the shared buffer become what the builder function makes of them |
| Builders.ErrorBuilder.Feed | cpp_redis/sources/builders/error_builder.cpp:29-37 | the same for the builder that wraps a string builder |
| Builders.IntegerBuilder.Feed | cpp_redis/sources/builders/integer_builder.cpp:38-68 | the digit loop in place equals the recursive scan, including the digits and sign left behind by an error |
| Builders.BulkStringBuilder.FetchSize | cpp_redis/sources/builders/bulk_string_builder.cpp:47-63 | size line read once; the size is narrowed to 32 bits and -1 makes the reply null |
| Builders.BulkStringBuilder.FetchStr | cpp_redis/sources/builders/bulk_string_builder.cpp:65-78 | waits for body and end sequence, then takes both from the buffer; the unsigned size comparison is modelled |
| Builders.BulkStringBuilder.Feed | cpp_redis/sources/builders/bulk_string_builder.cpp:80-92 | fields, buffer and thrown error are those of the builder function |
| Builders.CreateNode | cpp_redis/sources/builders/builders_factory.cpp:36-53 | a fresh object tree in the state the type byte selects: a string builder for 43, an error builder for 45, an integer builder for 58, a bulk builder for 36, an array builder for 42, none for any other byte |
| Builders.FeedNode | cpp_redis/sources/builders/array_builder.cpp:60-78 | the virtual call: any builder object does to its state and the shared buffer what the builder function does |
| Builders.NodeResult | cpp_redis/sources/builders/array_builder.cpp:68-71 | readiness and reply read through the base class are those of the builder's state |
| Builders.ArrayBuilder.FetchArraySize | cpp_redis/sources/builders/array_builder.cpp:37-58 | size line read once; negative is null, zero an empty array |
| Builders.ArrayBuilder.OpenRow | cpp_redis/sources/builders/array_builder.cpp:62-65 | the type byte is consumed only when there is no current builder; an unknown byte changes nothing |
| Builders.ArrayBuilder.FeedRow | cpp_redis/sources/builders/array_builder.cpp:67-69 | only the current builder and the buffer change, as the builder function says |
| Builders.ArrayBuilder.CloseRow | cpp_redis/sources/builders/array_builder.cpp:71-77 | the row is appended, its builder dropped, and the array is finished exactly when its size is reached |
| Builders.ArrayBuilder.BuildRow | cpp_redis/sources/builders/array_builder.cpp:60-78 | either the loop goes on with the same outcome and strictly fewer bytes, or the call is over with that outcome |
| Builders.ArrayBuilder.Feed | cpp_redis/sources/builders/array_builder.cpp:80-93 | the mutually recursive object form computes the builder function, allocating only fresh objects |
| ReplyBuilders.ReplyBuilder.OpenReply | cpp_redis/sources/builders/reply_builder.cpp:54-57 | the type byte is consumed only when no builder is open; an unknown byte changes nothing |
| ReplyBuilders.ReplyBuilder.BuildReply | cpp_redis/sources/builders/reply_builder.cpp:49-69 | either one more reply is out and the drain goes on with strictly fewer bytes, or the drain is over with this state and error |
| ReplyBuilders.ReplyBuilder.Feed | cpp_redis/sources/builders/reply_builder.cpp:34-41 | append and drain: the object refines the value-level parser of the laws above |
| ReplyBuilders.ReplyBuilder.Reset | cpp_redis/sources/builders/reply_builder.cpp:43-47 | buffer and open builder go, finished replies stay |
| ReplyBuilders.ReplyBuilder.PopFront | cpp_redis/sources/builders/reply_builder.cpp:84-90 | the oldest reply is removed and nothing else changes; on an empty queue it throws |
| Connection.BuildCommand | cpp_redis/sources/network/redis_connection.cpp:114-122 | the printed command is byte 42, the number of parts in decimal and an end of line, and for each part byte 36, its length, an end of line, the part and an end of line; that is the RESP2 encoding of an array of bulk strings |
| Connection.SendBufferDecodes | cpp_redis/sources/network/redis_connection.cpp:124-132 | unique decodability: the bytes of any sequence of sends, cut anywhere, read back through the reply builder as exactly those commands, and no other sequence of commands prints the same |
| Connection.RedisConnection.Send | cpp_redis/sources/network/redis_connection.cpp:124-132 | the encoding is appended to the send buffer and the reader is untouched |
| Connection.RedisConnection.Commit | cpp_redis/sources/network/redis_connection.cpp:137-159 | the buffer is always emptied; what is not written is lost and the call throws |
| Connection.RedisConnection.HandOver | cpp_redis/sources/network/redis_connection.cpp:184-194 | all finished replies are handed over oldest first and none is left |
| Connection.RedisConnection.Receive | cpp_redis/sources/network/redis_connection.cpp:169-207 | a failed read changes nothing; otherwise either all replies of the chunk are handed over in order, or a parse error hands over nothing and calls the disconnection handler |
| Connection.RedisConnection.Disconnected | cpp_redis/sources/network/redis_connection.cpp:209-224 | send buffer and half-read input are dropped |
| Pipeline.ReadChunk | cpp_redis/sources/network/redis_connection.cpp:169-207 | a reader stays in step with the encoded sequence it is reading, whatever the size of the chunk, and has all of it when nothing is in flight |
| Pipeline.DrainBehind | cpp_redis/sources/builders/reply_builder.cpp:34-69 | finished replies still queued do not influence parsing |
| Pipeline.DispatchPairs | cpp_redis/sources/core/sentinel.cpp:168-193 | replies and queued callbacks are paired off in order |
| Pipeline.TakeNext | cpp_redis/sources/network/redis_connection.cpp:184-194 | the oldest queued reply is the next answer, and the reader stays in step when it is taken |
| Pipeline.StepKeeps | cpp_redis/sources/core/sentinel.cpp:168-252 | safety: send, commit, server read, server answer, garbled bytes, client read, one hand-over and a new connection all keep the invariant of the system (that they also make progress is what `EveryCommandIsRead` and `EveryCallbackCanRun` state) |
| Pipeline.PipeliningIsFifo | cpp_redis/sources/core/sentinel.cpp:168-252 | end to end, over every run, every cut of both byte streams and any number of lost connections: on a connection that started with nothing left over and was not garbled, the k-th command read by the server is the k-th sent, the k-th callback run is that of the k-th command with the k-th answer, nothing is left undone once nothing is in flight, and the queue holds exactly the callbacks still owed |
| Pipeline.FifoInFrontOfJunk | cpp_redis/sources/network/redis_connection.cpp:169-207 | over every run, on a connection garbled after g answers: the first g callbacks run are those of the first commands, each with its own answer, whatever the garbled bytes make of the rest |
| Pipeline.SilentAfterError | cpp_redis/sources/network/redis_connection.cpp:177-182 | after an error no callback runs until there is a new connection |
| Pipeline.FrontOfGarbled | cpp_redis/sources/builders/reply_builder.cpp:34-69 | whatever follows them, encoded replies come out of the reader first, as long as no error is raised |
| Pipeline.FifoRestarts | cpp_redis/sources/network/redis_connection.cpp:169-224 | on a new connection first in, first out holds in every undisturbed run if and only if no finished reply was queued when the old one was lost and, after an explicit disconnect, no callback was waiting, for a next command whose callback is not the oldest waiting one |
| Pipeline.FirstCallRuns | cpp_redis/sources/network/redis_connection.cpp:169-224 | the first call of a new connection takes the oldest callback and the oldest reply, left over ones before its own, in both ways of losing a connection |
| Pipeline.OldReplyIsDelivered | cpp_redis/sources/network/redis_connection.cpp:177-194 | a reply still queued when the connection was lost is given to the first callback of the next one, whatever the server answers |
| Pipeline.OldCallbackIsCalled | cpp_redis/sources/core/sentinel.cpp:220-225 | a callback still waiting when the user disconnected is given the answer to the first command of the next connection |
| Pipeline.AnswerToOldCallback | cpp_redis/sources/core/sentinel.cpp:168-252 | a run from the start that ends so: send, disconnect, connect, send another command, and the callback of the first is given the answer to the second |
| Pipeline.GarbledBehindReply | cpp_redis/sources/network/redis_connection.cpp:177-182 | a run that leaves such a reply: one finished in front of a byte that is no type byte |
| PipelineProgress.EveryCommandIsRead | cpp_redis/sources/network/redis_connection.cpp:137-159 | completion, in every run: a commit and a server read of everything in flight empty the send buffer and the stream, and then the server has read as many commands as were sent, the k-th being the k-th sent |
| PipelineProgress.EveryCallbackCanRun | cpp_redis/sources/core/sentinel.cpp:168-286 | completion, in every run on a clean connection and for any answers to the unanswered commands: the run can be continued so that each command is read, answered with them and its callback called with its own answer, and nothing is left in any buffer, stream or queue |
| Sentinels.SentKeeps | cpp_redis/sources/core/sentinel.cpp:242-252 | a send keeps every callback in exactly one place |
| Sentinels.EnterKeeps | cpp_redis/sources/core/sentinel.cpp:173-181 | so does the first critical section of the receive handler, with an empty queue too |
| Sentinels.LeaveKeeps | cpp_redis/sources/core/sentinel.cpp:188-192 | so does the second, for any of the running handlers |
| Sentinels.ClearKeeps | cpp_redis/sources/core/sentinel.cpp:195-203 | so does discarding the queue |
| Sentinels.SyncCommitIsSafe | cpp_redis/sources/core/sentinel.cpp:264-286 | in every interleaving of the critical sections, each callback sent is exactly once waiting, running, finished or discarded; the wait condition holds if and only if no handler runs and each callback sent has returned or was discarded |
| Sentinels.TakenInOrder | cpp_redis/sources/core/sentinel.cpp:173-181 | in every interleaving, the waiting callbacks are the newest ones in the order sent, and a handler that enters takes the oldest of them |
| Sentinels.WaitCanEnd | cpp_redis/sources/core/sentinel.cpp:264-286 | from every state the handlers alone can reach the wait condition, with nothing sent or discarded |
| Sentinels.Sentinel.Send | cpp_redis/sources/core/sentinel.cpp:242-252 | queue, send buffer and history after a send, keeping the object tied to a conserving history |
| Sentinels.Sentinel.EnterHandler | cpp_redis/sources/core/sentinel.cpp:173-181 | the front callback is taken, if any, and the counter is the number of running handlers |
| Sentinels.Sentinel.LeaveHandler | cpp_redis/sources/core/sentinel.cpp:188-192 | the counter drops by one and the queue is untouched |
| Sentinels.Sentinel.ClearCallbacks | cpp_redis/sources/core/sentinel.cpp:195-203 | the queue is empty and its callbacks are recorded as discarded |
| Sentinels.Sentinel.WaitIsOver | cpp_redis/sources/core/sentinel.cpp:264-272 | the tested condition is true exactly when no handler runs and nothing waits, and then every registered callback has returned or was discarded |
| Sentinels.Sentinel.HandleReply | cpp_redis/sources/core/sentinel.cpp:168-193 | one handler run: the front callback, if any, leaves the queue and is called with this very reply; the counter is as before |
| Sentinels.Sentinel.HandleReplies | cpp_redis/sources/core/sentinel.cpp:168-193 | the handlers of one read, one after the other, make exactly the calls of the dispatch function of the pipeline |
| Subscriptions.ReconnectFits | cpp_redis/sources/core/subscriber.cpp:473-514 | an attempt changes neither map's keys, whatever happens to it |
| Subscriptions.AttemptOutcome | cpp_redis/sources/core/subscriber.cpp:473-514 | one attempt counts once and either leaves the client trying with everything else untouched, or brings it back with exactly the greeting sent |
| Subscriptions.ThrowsUnfolds | cpp_redis/sources/core/subscriber.cpp:431-514 | whether a loop reaches an attempt that throws, read off its list of attempts, unfolds with the first attempt |
| Subscriptions.LoopOutcome | cpp_redis/sources/core/subscriber.cpp:431-434 | the loop throws exactly when an attempt is reached whose lookup throws; otherwise it ends still trying or back, within the allowed number of attempts |
| Subscriptions.DropOutcome | cpp_redis/sources/core/subscriber.cpp:410-514 | a drop ends connected with both maps unchanged and exactly AUTH, CLIENT SETNAME, SUBSCRIBEs, PSUBSCRIBEs sent, or disconnected with both maps empty and `Stopped` as last event, after at most the allowed attempts; it throws exactly when an attempt is reached whose master lookup has no sentinel or cannot send its query |
| Subscriptions.StuckAfterThrow | cpp_redis/sources/core/subscriber.cpp:412-419 | after that exception and any further steps, a new connection included, the handler does nothing, a drop only clears the connection, and the agreement survives it if and only if nothing is subscribed |
| Subscriptions.SubscribeAgrees | cpp_redis/sources/core/subscriber.cpp:197-229 | subscribing keeps the agreement of commands and maps, for channels and patterns |
| Subscriptions.UnsubscribeAgrees | cpp_redis/sources/core/subscriber.cpp:231-265 | so does unsubscribing, of keys that are not subscribed too |
| Subscriptions.SettingsAgree | cpp_redis/sources/core/subscriber.cpp:148-178 | so do AUTH and CLIENT SETNAME |
| Subscriptions.CommitAgrees | cpp_redis/sources/core/subscriber.cpp:267-280 | a commit keeps the agreement if and only if it is made while connected or both maps are empty: a failed write loses the buffer |
| Subscriptions.DisconnectAgrees | cpp_redis/sources/core/subscriber.cpp:180-185 | an explicit disconnect keeps the agreement if and only if both maps are empty, since it keeps the maps |
| Subscriptions.GreetingApplies | cpp_redis/sources/core/subscriber.cpp:507-527 | what is sent on a new connection gives an empty server exactly the key sets of the maps, in any iteration order |
| Subscriptions.DropAgrees | cpp_redis/sources/core/subscriber.cpp:410-453 | a drop keeps the agreement if and only if no attempt is reached whose lookup throws, or both maps were empty |
| Subscriptions.LostSubscription | cpp_redis/sources/core/subscriber.cpp:180-280 | a subscription made before connecting is lost by a commit, and one that was sent by an explicit disconnect |
| Subscriptions.LostByDrop | cpp_redis/sources/core/subscriber.cpp:71-87 | a run of four calls to a connected subscriber whose next drop throws: asking for a master by name without sentinels throws but keeps the name, and the drop then leaves the subscription on no server |
| Subscriptions.ConnectKeeps | cpp_redis/sources/core/subscriber.cpp:90-121 | connecting keeps the agreement, whether it is accepted, fails, or is refused because the client is connected |
| Subscriptions.ConnectByNameKeeps | cpp_redis/sources/core/subscriber.cpp:71-87 | so does connecting by name, whatever the lookup does |
| Subscriptions.GarbledKeeps | cpp_redis/sources/network/redis_connection.cpp:177-182 | a reply that cannot be parsed calls the drop handler on a live connection, which changes nothing but events and the attempt counter |
| Subscriptions.StepKeeps | cpp_redis/sources/core/subscriber.cpp:71-280 | every step of a subscriber keeps the invariant: both ways to connect with all their failures, adding and clearing sentinels, cancelling, both kinds of subscribe and unsubscribe, AUTH, SETNAME, commit, disconnect, drop, garbled input |
| Subscriptions.ServerAgrees | cpp_redis/sources/core/subscriber.cpp:71-453 | over every run with commits and disconnects that lose nothing and no drop that throws: a server that reads the bytes sent on this connection and those in the buffer, cut anywhere, reads exactly the commands and ends with exactly the key sets of the two maps |
| SubscriberRuns.Words | cpp_redis/sources/core/subscriber.cpp:148-265 | the words of the commands are the ASCII bytes of AUTH, CLIENT, SETNAME, SUBSCRIBE, UNSUBSCRIBE, PSUBSCRIBE and PUNSUBSCRIBE |
| SubscriberRuns.PasswordIsLast | cpp_redis/sources/core/subscriber.cpp:148-160 | after any steps, the password kept is the text of the last `auth`, whatever happened before and since |
| SubscriberRuns.NameIsLast | cpp_redis/sources/core/subscriber.cpp:162-178 | the same for `client_setname` |
| SubscriberRuns.MasterIsLast | cpp_redis/sources/core/subscriber.cpp:71-87 | the master name kept is the one asked for last, even when that call threw |
| SubscriberRuns.OptionsAreLast | cpp_redis/sources/core/subscriber.cpp:90-105 | the reconnect limit, whether attempts sleep and whether someone listens are those of the last `connect` to a host, even when it threw |
| SubscriberRuns.SentinelsSinceClear | cpp_redis/sources/core/subscriber.cpp:123-142 | the sentinels are those added since they were last cleared |
| SubscriberRuns.LastCallback | cpp_redis/sources/core/subscriber.cpp:197-229 | for channels and patterns: the callback of a key is the one given last, and it is there unless a drop has emptied the maps since |
| SubscriberRuns.LastUnsubscribed | cpp_redis/sources/core/subscriber.cpp:231-265 | a key unsubscribed last is not there |
| SubscriberRuns.EverythingIsSent | cpp_redis/sources/core/subscriber.cpp:148-280 | while a connection lasts, what was sent and what is buffered is, in byte literals and in order, exactly what the user asked for, and a commit sends all of it |
| SubscriberRuns.ConnectOutcome | cpp_redis/sources/core/subscriber.cpp:90-121 | `connect` throws if and only if there is a connection or the host refuses, and then leaves the connection as it was; the events told are exact |
| SubscriberRuns.ConnectByNameOutcome | cpp_redis/sources/core/subscriber.cpp:71-87 | by name it throws also if and only if there is no sentinel or the master is not found |
| SubscriberRuns.ComesBack | cpp_redis/sources/core/subscriber.cpp:431-514 | a dropped connection comes back if and only if reconnecting was not cancelled and some allowed attempt succeeds after others that only fail, and the number of attempts is then its position |
| SubscriberRuns.GivesUpWhen | cpp_redis/sources/core/subscriber.cpp:431-471 | a drop is given up only when reconnecting was cancelled or the limit of attempts is reached |
| SubscriberRuns.CancelIsFinal | cpp_redis/sources/core/subscriber.cpp:143-146 | after `cancel_reconnect` and any further steps, a drop makes no attempt, does not throw and does not come back |
| SubscriberRuns.SendsBuffered | cpp_redis/sources/core/subscriber.cpp:507-560 | an attempt that succeeds sends what was still buffered and then the greeting, in byte literals |
| SubscriberRuns.GreetedOnReturn | cpp_redis/sources/core/subscriber.cpp:507-560 | over every run, a connection that comes back is sent, in byte literals: AUTH and the password, CLIENT SETNAME and the name, SUBSCRIBE for each channel, PSUBSCRIBE for each pattern |
| SubscriberRuns.AuthenticatesFirst | cpp_redis/sources/core/subscriber.cpp:507-544 | over every run, the first command on a connection that comes back is AUTH with the text of the last `auth`, if that is not empty |
| SubscriberRuns.NamesItself | cpp_redis/sources/core/subscriber.cpp:507-560 | over every run, the next one is CLIENT SETNAME with the text of the last `client_setname`, if that is not empty |
| SubscriberRuns.DropAnnounced | cpp_redis/sources/core/subscriber.cpp:410-514 | a listener is told of a drop once, of every sleep and every failed attempt once, of success twice, and of giving up once if it was given up |
| SubscriberRuns.NobodyListens | cpp_redis/sources/core/subscriber.cpp:410-514 | without a listener nothing is told |
| Subscribers.Subscriber.constructor | cpp_redis/sources/core/subscriber.cpp:32-48 | a new subscriber has no subscriptions, is not connected and has nothing buffered |
| Subscribers.Subscriber.Subscribe | cpp_redis/sources/core/subscriber.cpp:197-212 | the map entry is set and SUBSCRIBE buffered, as in the state machine of the laws |
| Subscribers.Subscriber.PSubscribe | cpp_redis/sources/core/subscriber.cpp:214-229 | the same for patterns |
| Subscribers.Subscriber.Unsubscribe | cpp_redis/sources/core/subscriber.cpp:231-247 | nothing happens for an unknown channel; otherwise UNSUBSCRIBE is buffered and the entry erased |
| Subscribers.Subscriber.PUnsubscribe | cpp_redis/sources/core/subscriber.cpp:249-265 | the same for patterns |
| Subscribers.Subscriber.Authenticate | cpp_redis/sources/core/subscriber.cpp:148-160 | the password is kept and AUTH with it buffered, as in the state machine whose runs `PasswordIsLast`, `EverythingIsSent` and `AuthenticatesFirst` are about |
| Subscribers.Subscriber.SetName | cpp_redis/sources/core/subscriber.cpp:162-178 | the name is kept and CLIENT SETNAME with it buffered, as in the state machine of `NameIsLast` and `NamesItself` |
| Subscribers.Subscriber.Commit | cpp_redis/sources/core/subscriber.cpp:267-280 | the buffered commands are sent if connected; otherwise they are lost and the call throws |
| Subscribers.Subscriber.Disconnect | cpp_redis/sources/core/subscriber.cpp:180-185 | connection, send buffer and half-read input are cleared, the maps stay, and the drop handler does not run |
| Subscribers.Subscriber.Connect | cpp_redis/sources/core/subscriber.cpp:90-121 | the parameters are kept even if the call then throws, which it does when it is not accepted or the client is connected already |
| Subscribers.Subscriber.ConnectByName | cpp_redis/sources/core/subscriber.cpp:71-87 | the master name is kept before the lookup, and every way the lookup can fail throws |
| Subscribers.Subscriber.ReSubscribe | cpp_redis/sources/core/subscriber.cpp:516-527 | both maps are emptied and entered again one by one: they end unchanged and every key is announced once, channels before patterns |
| Subscribers.Subscriber.Reconnect | cpp_redis/sources/core/subscriber.cpp:455-514 | one attempt, with the escaping lookup error, is the attempt of the laws |
| Subscribers.Subscriber.Greet | cpp_redis/sources/core/subscriber.cpp:507-513 | on the new connection exactly the greeting is sent and nothing stays buffered |
| Subscribers.Subscriber.ReAuth | cpp_redis/sources/core/subscriber.cpp:530-544 | AUTH is buffered exactly when there is a password |
| Subscribers.Subscriber.ReSetName | cpp_redis/sources/core/subscriber.cpp:546-560 | CLIENT SETNAME is buffered exactly when there is a name |
| Subscribers.Subscriber.RunLoop | cpp_redis/sources/core/subscriber.cpp:431-434 | the while loop is the recursive loop of the laws |
| Subscribers.Subscriber.HandleDrop | cpp_redis/sources/core/subscriber.cpp:410-447 | the handler in place computes the handler of the laws, on both ways out |
| Subscribers.Subscriber.Lose | cpp_redis/sources/network/redis_connection.cpp:209-224 | the connection is cleared first, then the handler runs: together the drop of the laws |
| BlowfishSpec.RoundTwice | common/encrypt/blowfish/blowfish.cc:13-15 | a round undoes itself, whatever the round function and the tables |
| BlowfishSpec.DecipherEncipher | common/encrypt/blowfish/blowfish.cc:30-74 | decipher and encipher are inverse to each other in both directions, for every P-array and all S-boxes |
| BlowfishSpec.DecEncBlock | common/encrypt/blowfish/blowfish.cc:139-148 | with the byte order changes around them, on any block of eight bytes |
| BlowfishSpec.DecEncBlocks | common/encrypt/blowfish/blowfish.cc:154-220 | block by block in both modes, from any chain value |
| BlowfishSpec.EncDecBlocks | common/encrypt/blowfish/blowfish.cc:154-220 | the other direction: enciphering undoes deciphering on any whole blocks, in both modes |
| BlowfishSpec.OutputLengthFits | common/encrypt/blowfish/blowfish.cc:128-133 | the 32-bit length is the least multiple of 8 with room for the input (and one padding byte in CBC) if and only if that multiple fits in 32 bits |
| BlowfishSpec.OutputLengthWraps | common/encrypt/blowfish/blowfish.cc:128-133 | concrete lengths whose padded length wraps around to zero |
| BlowfishSpec.DecodeLengthFits | common/encrypt/blowfish/blowfish.cc:194-211 | the 32-bit block counter of `Decode` gets past a length, so that the loop ends, if and only if the length in whole blocks fits in 32 bits |
| BlowfishSpec.DecodeNeverEnds | common/encrypt/blowfish/blowfish.cc:194-211 | a concrete length that the counter never gets past |
| BlowfishSpec.UnpadPadded | common/encrypt/blowfish/blowfish.cc:154-220 | the padding `Encode` adds in CBC mode is recognised by `Decode`, for every input length |
| BlowfishSpec.ModeRoundTrip | common/encrypt/blowfish/blowfish.cc:154-220 | decoding an encoding gives the zero-padded input in ECB, and in CBC exactly the input and its length |
| BlowfishLaws.EncipherIsPublished | common/encrypt/blowfish/blowfish.cc:30-50 | the unrolled, unswapped rounds that mix one subkey ahead are the cipher as published: sixteen times mix, round function, swap, then undo the last swap and mix the last two subkeys |
| BlowfishLaws.Box3 | common/encrypt/blowfish/blowfish.cc:13-14 | two tables that differ only in box 3 give results of the round function whose difference is that of the two entries at the lowest byte |
| BlowfishLaws.Box2 | common/encrypt/blowfish/blowfish.cc:13-14 | that differ only in box 2: without the box 3 entry, the results differ, by exclusive or, as the two entries at the second lowest byte |
| BlowfishLaws.Box1 | common/encrypt/blowfish/blowfish.cc:13-14 | that differ only in box 1: without the entries of boxes 3 and 2, the difference is that of the two entries at the second highest byte |
| BlowfishLaws.Box0 | common/encrypt/blowfish/blowfish.cc:13-14 | that differ only in box 0: the same at the highest byte |
| BlowfishLaws.EmptyBoxes | common/encrypt/blowfish/blowfish.cc:13-14 | boxes of zeros give zero |
| BlowfishLaws.MixedBytes | common/encrypt/blowfish/blowfish.cc:96-105 | mixing changes byte k of subkey i by key byte (4i + k) mod n |
| BlowfishLaws.MixedSubkeys | common/encrypt/blowfish/blowfish.cc:96-105 | two keys of any lengths give the same mixed subkeys if and only if they agree, read around, in the first 72 bytes |
| BlowfishLaws.DifferentKeys | common/encrypt/blowfish/blowfish.cc:96-105 | different keys of one length up to 72 give different mixed subkeys |
| BlowfishLaws.ScheduleChains | common/encrypt/blowfish/blowfish.cc:107-124 | the schedule by its result: each pair of subkeys is the pair before it, first zero, enciphered with the subkeys filled so far and the initial boxes; each pair of box entries is the pair before it, first the last subkeys, enciphered with the boxes filled so far |
| BlowfishLaws.BlockWords | common/encrypt/blowfish/blowfish.cc:139-148 | a block is two words, the most significant byte first, and enciphering a block enciphers these |
| BlowfishLaws.XorBlockBytes | common/encrypt/blowfish/blowfish.cc:167-168 | the chain value is mixed in byte by byte |
| BlowfishLaws.NthMessageBlock | common/encrypt/blowfish/blowfish.cc:165-179 | block i of the output is the enciphered block i of the padded input, in CBC after the first mixed with output block i - 1 |
| BlowfishLaws.PaddedBytes | common/encrypt/blowfish/blowfish.cc:159-163 | the bytes behind the text are fewer than eight zeros in ECB, and in CBC one to eight bytes that each hold their number |
| BlowfishLaws.DroppedBytes | common/encrypt/blowfish/blowfish.cc:213-219 | k bytes are dropped if and only if k is at most 8 and the first and the last of them hold k |
| Blowfish.CBlowFish.LoadInit | common/encrypt/blowfish/blowfish.cc:86-94 | subkeys and S-boxes are reset to the initial tables |
| Blowfish.CBlowFish.BlowfishEncipher | common/encrypt/blowfish/blowfish.cc:30-50 | the unrolled rounds compute sixteen rounds and the final swap of the specification, which `EncipherIsPublished` and the box laws determine |
| Blowfish.CBlowFish.BlowfishDecipher | common/encrypt/blowfish/blowfish.cc:53-74 | the unrolled rounds compute the rounds in reverse order, the inverse of the former |
| Blowfish.CBlowFish.AddKey | common/encrypt/blowfish/blowfish.cc:96-105 | every subkey is changed, byte by byte, by the key read cyclically: byte k of subkey i by key byte (4i + k) mod n; nothing else changes |
| Blowfish.CBlowFish.FillSubkeys | common/encrypt/blowfish/blowfish.cc:107-114 | the running encipherment, with the tables changing under it, fills the subkeys |
| Blowfish.CBlowFish.FillBoxes | common/encrypt/blowfish/blowfish.cc:116-124 | and then all four S-boxes |
| Blowfish.CBlowFish.Initialize | common/encrypt/blowfish/blowfish.cc:78-125 | whatever the tables held before, they become the schedule of the initial tables and the key alone, which `ScheduleChains` and `MixedBytes` determine |
| Blowfish.CBlowFish.GetOutputLength | common/encrypt/blowfish/blowfish.cc:128-133 | the length function, wrap-around included |
| Blowfish.CBlowFish.EncipherAt | common/encrypt/blowfish/blowfish.cc:139-148 | eight bytes of the buffer are enciphered in place and no other byte changes |
| Blowfish.CBlowFish.EncodeLoop | common/encrypt/blowfish/blowfish.cc:165-179 | the in-place loop enciphers block after block with the chain value of the mode |
| Blowfish.CBlowFish.DecodeLoop | common/encrypt/blowfish/blowfish.cc:194-211 | the in-place loop deciphers, keeping each cipher block as the next chain value |
| Blowfish.CBlowFish.Pad | common/encrypt/blowfish/blowfish.cc:159-163 | copy and padding, for separate buffers and for one shared buffer |
| Blowfish.CBlowFish.Encode | common/encrypt/blowfish/blowfish.cc:154-182 | the output is the block-wise encipherment of the padded input and nothing behind it changes, for separate buffers and in place |
| Blowfish.CBlowFish.DropPadding | common/encrypt/blowfish/blowfish.cc:213-219 | the returned length is the one the last byte announces if that is a padding, and the bytes before it stay |
| Blowfish.CBlowFish.Decode | common/encrypt/blowfish/blowfish.cc:186-220 | output and returned length are those of block-wise decipherment and unpadding, for separate buffers and in place |
| Blowfish.CBlowFish.EncodeAndDecode | common/encrypt/blowfish/blowfish.cc:154-220 | encoding and decoding one buffer in place gives the text and its length in CBC, and the padded text in ECB |
| Base64Spec.SextetOfSymbol | common/encrypt/base64/base64.cc:31-118 | the alphabet is injective and does not contain the pad |
| Base64Spec.SymbolOfSextet | common/encrypt/base64/base64.cc:315-361 | and onto: every accepted character is the symbol of its value |
| Base64Spec.EncodeLength | common/encrypt/base64/base64.h:52 | the encoding has four characters for every three bytes begun |
| Base64Spec.EncodedStripsToSymbols | common/encrypt/base64/base64.cc:504-540 | without its pads the encoding is made of symbols that denote exactly the bytes |
| Base64Spec.RoundTrip | common/encrypt/base64/base64.cc:504-680 | decoding the encoding of any byte string gives it back |
| Base64Spec.DecodeLength | common/encrypt/base64/base64.cc:679 | an accepted text decodes to three bytes for every four characters, less one for every pad |
| Base64Spec.EncodeDecode | common/encrypt/base64/base64.cc:611-680 | an accepted text is the encoding of what it decodes to if and only if the unused bits of its last symbol are zero |
| Base64Spec.TwoTextsOneByte | common/encrypt/base64/base64.cc:664-667 | two concrete texts that decode to the same byte |
| Base64Spec.TablesEncode | common/encrypt/base64/base64.cc:512-518 | the four table look-ups of the main loop give the four symbols of RFC 4648, section 4 |
| Base64Spec.TablesEncodeTail | common/encrypt/base64/base64.cc:523-536 | so do the look-ups for one or two bytes left over |
| Base64Spec.TablesDecode | common/encrypt/base64/base64.cc:315-502 | the combined table word is below BADCHAR if and only if all four characters are symbols, and then its three low bytes in memory order are the decoded bytes |
| Base64Spec.TablesDecodeTwo | common/encrypt/base64/base64.cc:664-667 | the same for two characters left over |
| Base64Spec.TablesDecodeThree | common/encrypt/base64/base64.cc:668-674 | the same for three |
| Base64Laws.CapitalLetters | common/encrypt/base64/base64.cc:31-118 | positions 0 to 25 of the alphabet are the capital letters |
| Base64Laws.SmallLetters | common/encrypt/base64/base64.cc:31-118 | positions 26 to 51 are the small letters |
| Base64Laws.DecimalDigits | common/encrypt/base64/base64.cc:31-118 | positions 52 to 61 are the digits |
| Base64Laws.PlusSlashPad | common/encrypt/base64/base64.cc:7-9 | positions 62 and 63 are plus and slash, the pad is the equals sign |
| Base64Laws.QuadNumber | common/encrypt/base64/base64.cc:512-518 | the positions of the four symbols of a group are, in base 64, the number that its three bytes are in base 256 |
| Base64Laws.NthQuad | common/encrypt/base64/base64.cc:512-518 | characters 4i to 4i + 3 are the symbols of bytes 3i to 3i + 2 |
| Base64Laws.BehindWholeGroups | common/encrypt/base64/base64.cc:504-540 | bytes behind whole groups are encoded on their own |
| Base64Laws.LastGroup | common/encrypt/base64/base64.cc:520-536 | one byte left over gives two symbols and two equals signs, two bytes three symbols and one |
| Base64.EncodeGroups | common/encrypt/base64/base64.cc:512-518 | the loop over whole groups writes a prefix of the encoding and nothing behind it |
| Base64.EncodeTail | common/encrypt/base64/base64.cc:520-536 | the switch completes it with pads |
| Base64.ModpEncode | common/encrypt/base64/base64.cc:504-540 | exactly the encoding and a terminating zero are written, within the room of the length macro |
| Base64.LookupWord | common/encrypt/base64/base64.cc:638-653 | reading four characters as one little-endian word and looking its bytes up decodes the group |
| Base64.DecodeChunks | common/encrypt/base64/base64.cc:637-648 | overlapping four-byte stores leave exactly the decoded bytes and touch at most one byte behind them |
| Base64.DecodeTail | common/encrypt/base64/base64.cc:650-679 | the last group, complete or with two or three characters, is accepted exactly when it is made of symbols |
| Base64.ModpDecode | common/encrypt/base64/base64.cc:611-680 | refinement: it fails if and only if the plain decoder refuses (length not a multiple of 4, or a character before the at most two pads outside the alphabet); otherwise it writes the plain decoder's bytes, returns their number as the formula of the source gives it, and never writes outside the room of the length macro |
| StringEncryption.DecryptEncrypt | common/encrypt/encrypt_blowfish_base64.cc:15-117 | decrypting with a separately initialised cipher gives the plain text without its trailing zero bytes |
| StringEncryption.TrimKeeps | common/encrypt/encrypt_blowfish_base64.cc:98-100 | the stripping loop leaves a text as it is if and only if it ends in a non-zero byte or is a single byte |
| StringEncryption.StringRoundTrip | common/encrypt/encrypt_blowfish_base64.cc:15-117 | the round trip is exact if and only if the last byte is not zero or the text is a single byte |
| StringEncryption.TrailingZeroIsLost | common/encrypt/encrypt_blowfish_base64.cc:98-100 | a concrete text that comes back without its last byte |
| StringEncryption.EncryptedBlocks | common/encrypt/encrypt_blowfish_base64.cc:15-54 | the text is the Base64 of as many blocks as the zero-filled plain text has, block i being its block i enciphered with the tables of the key |
| StringEncryption.RefusedTexts | common/encrypt/encrypt_blowfish_base64.cc:56-117 | exactly the empty text and texts that are no Base64 are refused |
| StringEncryption.EncodeText | common/encrypt/base64/base64.cc:697-711 | the text is the Base64 encoding of the buffer, without the terminator |
| StringEncryption.DecodeText | common/encrypt/base64/base64.cc:713-729 | success, length and bytes are those of the plain Base64 decoder |
| StringEncryption.Encipher | common/encrypt/encrypt_blowfish_base64.cc:25-39 | the allocated buffer holds the encipherment of the zero-padded text under the schedule of the key |
| StringEncryption.Encrypt | common/encrypt/encrypt_blowfish_base64.cc:15-54 | the composed buffers compute the encryption function; the empty text is refused |
| StringEncryption.Decipher | common/encrypt/encrypt_blowfish_base64.cc:82-96 | the zeroed buffer holds the decipherment of the whole blocks |
| StringEncryption.StripZeros | common/encrypt/encrypt_blowfish_base64.cc:98-100 | the loop computes the trimming function and always keeps one byte |
| StringEncryption.Decrypt | common/encrypt/encrypt_blowfish_base64.cc:56-117 | the composed buffers compute the decryption function, for every text: malformed and empty ones are refused |
| GrpcCalls.ProceedKeeps | common/grpc_server_call_data.h:100-125 | safety: create, process with a successor, and delete all keep the state safe (that the last one deletes is `FinishedIsDeleted`) |
| GrpcCalls.TakeEventKeeps | common/grpc_server_call_data.cc:8-22 | so does taking an event, good or failed |
| GrpcCalls.DoneKeeps | common/grpc_server_call_data.h:137-146 | so does the end of processing, posted and run |
| GrpcCalls.StepSafe | common/grpc_server_call_data.h:73-146 | every step of the server keeps the state safe, although a step asks only for its continuation and nothing about the object |
| GrpcCalls.HandOver | common/grpc_server_call_data.h:112-118 | when a request is taken up, the object stops waiting and the one it creates waits for the same method |
| GrpcCalls.LostWaiting | common/grpc_server_call_data.cc:17-19 | a failed request event leaves no object waiting for its method, and exactly one for every other that had one |
| GrpcCalls.EventWaiting | common/grpc_server_call_data.cc:8-22 | whatever the library reports, exactly one object goes on waiting for each method, except for a method whose request event failed; a failed `Finish` event costs nobody |
| GrpcCalls.StepWaiting | common/grpc_server_call_data.h:73-146 | every step keeps exactly one object waiting for each registered method whose request event has not failed, and none for any other |
| GrpcCalls.StepNotForgotten | common/grpc_server_call_data.h:73-146 | every step leaves an outstanding continuation for every live object whose event has not failed |
| GrpcCalls.CallsAreSafe | common/grpc_server_call_data.h:73-146 | over every run: no step touches a deleted object, a live object has at most one outstanding continuation and exactly one unless its event has failed, an object whose event failed is never deleted, `Process` runs at most once per object, and deletion comes only after the object's own good `Finish` event |
| GrpcCalls.OneWaiterPerMethod | common/grpc_server_call_data.h:73-146 | over every run, for every method: exactly one object waits for it if and only if it is registered and no request event for it has failed, and otherwise none does |
| GrpcCalls.NobodyWaits | common/grpc_server_call_data.cc:17-19 | a run of three steps after which nobody waits for a registered method |
| CallProgress.FinishedIsDeleted | common/grpc_server_call_data.h:119-122 | over every run: running the posted `Proceed` of an object whose `Finish` event was good deletes it, with `Process` having run once and no continuation of it left |
| CallProgress.Advances | common/grpc_server_call_data.h:73-146 | every live object whose event has not failed can take a step of its own that brings it nearer to its deletion |
| CallProgress.EveryCallCanFinish | common/grpc_server_call_data.h:73-146 | over every run: each such object can be run by its own continuations, in at most ten steps, to where it is deleted, `Process` has run for it exactly once and none of its continuations is left |
| GrpcCalls.CallServer.Register | common/grpc_server_call_data.h:73-81 | a first object for a method; the state machine's step, keeping it safe |
| GrpcCalls.CallServer.Proceed | common/grpc_server_call_data.h:100-125 | the switch computes the state machine's step; the object it touches is live because the state is safe, and after a good `Finish` event it is deleted, as `FinishedIsDeleted` states of that step |
| GrpcCalls.CallServer.OnProcessed | common/grpc_server_call_data.h:137-146 | the state machine's step, with the status changed before `Finish` is called |
| GrpcCalls.CallServer.HandleRpc | common/grpc_server_call_data.cc:12-21 | one turn of the event loop is the state machine's step |
| Paths.WholeComponents | common/path/path_protected.cc:26-29 | `IsStartWith` means the same path or a path below it, on whole components, up to case folding on Windows; a full match means the same path |
| Paths.FoldedBytes | common/path/file_path_unit.cc:427-444 | two bytes compare equal if and only if they are equal or, on Windows, one ASCII letter in both cases |
| Paths.SamePaths | common/path/file_path_unit.cc:427-444 | so paths are the same on Posix if and only if they are equal, on Windows if and only if they differ in ASCII case at most |
| Paths.WhatIsProtected | common/path/path_protected.cc:252-283 | protected are exactly the profile directories themselves and what is within a protected tree but within no profile; by the wider check also what holds a protected tree |
| Paths.SameAnswers | common/path/path_protected.cc:252-283 | a path spelled in another case gets the same answers where case does not count |
| Paths.BelowChild | common/path/path_protected.cc:31-49 | a plain child lies below something only if its directory does or it is that thing itself |
| Paths.CacheAgrees | common/path/path_protected.cc:252-318 | for every directory and every child name without a slash, the cached check equals the direct check if and only if not both the directory and the child are profile directories |
| Paths.CacheAgreesEx | common/path/path_protected.cc:270-347 | the extended check agrees if and only if the directory is no profile, or the child neither is one nor holds a protected path |
| Paths.NestedProfiles | common/path/path_protected.cc:295-347 | a Windows machine with a profile directory inside another, on which both cached checks differ from the direct ones |
| Paths.ProtectedInsideProfile | common/path/path_protected.cc:270-347 | a protected path two levels below a profile directory, where only the extended cached check differs |
| Paths.CheckProtected | common/path/path_protected.cc:252-268 | the scans decide the predicate |
| Paths.CheckProtectedEx | common/path/path_protected.cc:270-283 | the same for the extended predicate |
| Paths.UnifiedSlash | common/path/file_path_unit.cc:111-115 | every backslash becomes a slash, every other byte and the length stay |
| Paths.ProtectedPathCheck.constructor | common/path/path_protected.cc:295-301 | the two cached flags are the checks of the unified root path |
| Paths.ProtectedPathCheck.IsChildProtected | common/path/path_protected.cc:307-318 | the answer is the cached one of the law |
| Paths.ProtectedPathCheck.IsChildProtectedEx | common/path/path_protected.cc:336-347 | the same for the extended check |
| FreshNames.CandidatesDiffer | common/path/file_path_unit.cc:143-189 | all candidates of one search are different, in both modes, except that several may be the empty path a special base name gives |
| FreshNames.InsertPlaces | common/path/file_path_unit.cc:143-189 | the suffix stands before the extension and nothing else is changed |
| FreshNames.SecondCandidates | common/path/file_path_unit.cc:143-189 | the second path tried has ` (2)` before the extension in one mode, the UTF-8 copy suffix in the other |
| FreshNames.TooManyToExist | common/path/file_path_unit.cc:143-189 | pigeonhole: as many existing candidates need as many existing paths, the empty path never being one |
| FreshNames.FindNumbered | common/path/file_path_unit.cc:174-189 | the search ends for every finite set of existing paths, within the range of `int`, and returns the first candidate that does not exist |
| FreshNames.FindCopy | common/path/file_path_unit.cc:143-172 | the same for the search that first tries the copy and then numbers it |

## Left out

- TCP client, tacopie, sockets, sleeping and logging: they appear only as chunks, drops and connection outcomes.
- What user callbacks do, and exceptions thrown by them; the handlers that deliver published messages and acknowledgements to callbacks.
- Networking inside the sentinel's master lookup: its outcome, an exception included, is part of a reconnect attempt. A second drop inside one attempt is not modelled; the drop handler is one atomic step.
- Runs that reconnect for ever (`max_reconnects` of -1 and no cancellation): the list of attempts is finite, and ends with a cancellation. The attempt counter's 32-bit range is not modelled.
- Scheduling inside a critical section: each critical section of the sentinel is one event.
- BuilderSpec.FetchStr: a bulk size of -2, or one of the two largest sizes of `int` once its ending is right, is undefined in the source and ends in the fault `Undefined`, about which nothing further is promised; stickiness is stated for the errors the source throws.
- Resp.ScanEncodedInt: excludes -2^63, whose digits overflow the accumulator; signed overflow is modelled as wrap-around.
- Resp.RoundTrip: bulk strings up to 2^31 - 3 bytes and arrays below 2^63 rows, the largest sizes the builders read back.
- The text and number fields a reply keeps from an earlier value, the typed accessors and `Reply2Vector`.
- Pipeline.PipeliningIsFifo: the server answers a command only after reading it; losing a connection and opening the next is one step, so that a commit while there is none is not modelled; `consumer` and `dispatch_queue`, whose dispatch is commented out, are not modelled.
- Pipeline.FifoRestarts: after an explicit disconnect the next command comes with another callback than the oldest waiting one; between two equal callbacks no delivery could be told to be wrong.
- Subscriptions.ServerAgrees: texts short enough for the protocol's reader; commits and disconnects that lose commands and drops that throw are excluded, with the conditions that `CommitAgrees`, `DisconnectAgrees` and `DropAgrees` prove exact; the server's replies to a subscription are not modelled.
- Blowfish.CBlowFish.Encode: input and output are the same buffer or separate ones, not partly overlapping ones; input lengths whose padded length wraps around 32 bits overrun the buffer in the source and are excluded by the condition that `OutputLengthFits` states.
- Blowfish.CBlowFish.Decode: CBC input that deciphers to a zero last byte makes the source read one byte behind the blocks, so that byte must exist; an empty CBC input is excluded because the source reads before the buffer; lengths on which the source's loop does not end are excluded by the condition that `DecodeLengthFits` states.
- Blowfish.CBlowFish.Initialize: the key is not empty, since the source divides by its length; the literal digit tables are a parameter, as no law depends on their values; the four S-boxes are laid out in one array.
- Base64.ModpDecode: the little-endian branch; the case of one character left over cannot occur with padding and is not modelled. The lookup tables are given by formula.
- StringEncryption.Encrypt: texts whose encoding has a length that fits in an `int`, and keys that are not empty.
- GrpcCalls.CallsAreSafe: each handler calls `OnProcessed` once and each request or finish yields one event, as the library and the handlers promise; the older duplicate event loop and call base class are not modelled; shutdown of the completion queue ends a run.
- FreshNames.FindNumbered: the set of existing paths does not change during the search and does not hold the empty path; `InsertBeforeExtension` is insertion at a position that depends on the path alone, and gives the empty path for special base names.
- Windows registry, access control and profile discovery: profile and protected paths are given lists.
- JSON files, configuration, error tagging, stream ids, health status, DLNA, the RPC stubs and all start-up code: they would only add easy members.
