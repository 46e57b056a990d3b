# chat-service delivery and write-coalescing core, in Dafny

This project models the part of the chat service that decides where messages
go and when pointer writes reach the database:

- **Last-message write coalescer.**
  - `HotRoomDetectionService` keeps a windowed message counter per room and a
    `hot`/`cool` mode with hysteresis (enter at 5, exit at 2). It also runs a
    debounce on the last time a pointer was written.
  - `PendingLastMessageFlushService` caches the largest skipped message id per
    room in a Redis hash. A set-if-absent flag makes sure only one delayed
    flush is queued per room. The service flushes on demand, on shutdown and on
    crash recovery.
  - The `updateLastMessageIdForChat` bulk update of `UserChatRepository` is part
    of this core: it only moves pointers forward, and only on active
    memberships.
- **Session registry and routing.**
  - `SessionManager` holds the local session and lock maps and mirrors them into
    the `user:{id}` → server directory.
  - `MessageDeliveryService` routes a message three ways: drop when offline,
    send locally, or forward over HTTP. Forwards retry a bounded number of times
    with a linearly growing delay.
  - `ChatMessageConsumer` does the Kafka fan-out and decides when an event is
    acknowledged.
  - `AsyncMessageDeliveryService` handles direct and group delivery.
  - `InternalMessageController` is the receiving end of a forward.
- **Connection and frame parsing.**
  - `WebSocketHandler` parses the connection query (`userId`, `chatRoomId`).
  - It resolves a frame's room, receiver and text, and unregisters on close.
- **Chat room identity.**
  - `ChatService` normalises the member ids, builds the `_`-joined raw key and
    picks the chat type by size.
  - It reuses a room with the same key, adds members, and recomputes the key
    when someone leaves.
- **Shard routing.**
  - `MessageShardKeySelector` maps a chat id to a shard with Java's truncated
    `%`.
  - `ShardingAspect` resolves the shard key and binds it for the duration of a
    call.

External systems become explicit state or parameters:

- Redis keys are maps and sets.
- The delayed queue and the retry scheduler are sequences of jobs that a method
  fires.
- HTTP is a log of posts, and each attempt's outcome is a parameter.
- A WebSocket send is a log of frames, with the transport outcome given as a
  fault parameter.
- JPA tables are row sequences or maps.
- The SHA-256 digest is a function parameter of the chat store.
- SpEL evaluation is the already-evaluated value of a sharded call.
- Wall-clock time is a `now` parameter. TTL expiry is one `Expire…` method per
  key.

Java's `long` range, `Long.parseLong`, `String.valueOf`, `toString` of null,
whole numbers, strings and lists (the JSON values the model admits), truncated
`%` and an `&`/`_` split are written out in the `JavaLang` module.

Modules, one per source class:

- `JavaLang`
- `UserChatRepository`
- `HotRoom`
- `PendingFlush`
- `SessionManager`
- `MessageDelivery`
- `ChatMessageConsumer`
- `AsyncDelivery`
- `InternalController`
- `WebSocketHandler`
- `ChatService`
- `Sharding`

## Model

| member | source | states |
|---|---|---|
| JavaLang.ParseLong | src/main/java/com/example/chatservice/message/service/PendingLastMessageFlushService.java:181 | `Long.parseLong`: a result is always in the `long` range, and a negative result comes from text starting with `-` |
| JavaLang.ParseShowRoundTrip | src/main/java/com/example/chatservice/message/service/PendingLastMessageFlushService.java:200-202 | a `long` written with `String.valueOf` parses back to the same value, so cached ids and timestamps read back exactly |
| JavaLang.ShowInjective | src/main/java/com/example/chatservice/chat/sercivce/ChatService.java:110-112 | distinct numbers have distinct decimal texts |
| JavaLang.WrapLong | src/main/java/com/example/chatservice/message/service/MessageDeliveryService.java:94 | a `long` product wraps modulo 2^64 into the `long` range and is exact when it fits |
| JavaLang.JavaRem | src/main/java/com/example/chatservice/sharding/MessageShardKeySelector.java:9 | Java's `%` has the sign of the dividend: in `[0, m)` for a non-negative dividend and in `(-m, 0]` for a negative one |
| JavaLang.LongField | src/main/java/com/example/chatservice/message/controller/InternalMessageController.java:27-31 | `Long.valueOf(request.get(k).toString())` succeeds only for a present, non-null field whose text parses, and yields that parse |
| JavaLang.LongFieldOfNumber | src/main/java/com/example/chatservice/message/controller/InternalMessageController.java:27-31 | a numeric field within the `long` range is read back as itself |
| JavaLang.Split | src/main/java/com/example/chatservice/common/ws/WebSocketHandler.java:138 | splitting on `&` yields at least one part, and no part contains the separator |
| JavaLang.SplitJoin | src/main/java/com/example/chatservice/chat/sercivce/ChatService.java:110-112 | joining separator-free parts and splitting again gives back the same parts |
| UserChatRepository.PointerUpdateRow | src/main/java/com/example/chatservice/chat/repository/UserChatRepository.java:42-48 | a row is rewritten exactly when it is an active membership of the room with a null or smaller pointer; it then holds `messageId` and every other field is unchanged; other rows are untouched; the pointer never decreases |
| UserChatRepository.CountIsChangedRows | src/main/java/com/example/chatservice/chat/repository/UserChatRepository.java:47-50 | the returned count is the number of rows the update changes |
| UserChatRepository.PointerUpdateIdempotent | src/main/java/com/example/chatservice/chat/repository/UserChatRepository.java:47-50 | repeating the same update changes nothing and reports 0 rows |
| UserChatRepository.UserChatTable.UpdateLastMessageIdForChat | src/main/java/com/example/chatservice/chat/repository/UserChatRepository.java:41-50 | the table becomes the conditionally updated rows, and the result is the number of rows that needed the update |
| UserChatRepository.FindActiveByChatRoomWithUser | src/main/java/com/example/chatservice/chat/repository/UserChatRepository.java:35-36 | returns exactly the rows of that room whose `leavedAt` is null |
| UserChatRepository.RowsOfUser | src/main/java/com/example/chatservice/chat/repository/UserChatRepository.java:38-39 | returns exactly the user's rows, a sub-multiset of the table |
| UserChatRepository.InsertByPointerDesc | src/main/java/com/example/chatservice/chat/repository/UserChatRepository.java:38-39 | inserting into a list sorted by pointer (descending) keeps it sorted and adds exactly that row |
| UserChatRepository.SortByPointerDesc | src/main/java/com/example/chatservice/chat/repository/UserChatRepository.java:38-39 | the result is sorted by `lastMessageId` descending and is a permutation of the input |
| UserChatRepository.FindByUserIdOrderByLastMessageIdDesc | src/main/java/com/example/chatservice/chat/repository/UserChatRepository.java:38-39 | a permutation of exactly the user's rows, sorted by `lastMessageId` descending |
| HotRoom.Decide | src/main/java/com/example/chatservice/message/service/HotRoomDetectionService.java:48-60 | hot iff the count reaches the enter threshold, or the stored mode is `hot` and the count is above the exit threshold; the mode afterwards is `hot` iff the answer is hot; a mode is written only when it changes |
| HotRoom.Answers | src/main/java/com/example/chatservice/message/service/HotRoomDetectionService.java:24-61 | successive calls give one answer per observed count |
| HotRoom.HotStaysHot | src/main/java/com/example/chatservice/message/service/HotRoomDetectionService.java:55-60 | hysteresis: a hot room stays hot on every call while the count stays above the exit threshold |
| HotRoom.CoolStaysCool | src/main/java/com/example/chatservice/message/service/HotRoomDetectionService.java:48-60 | a room that is not hot stays not hot while the count stays below the enter threshold |
| HotRoom.SkipUpdate | src/main/java/com/example/chatservice/message/service/HotRoomDetectionService.java:71-80 | a skip happens only when a timestamp is stored and parses |
| HotRoom.DebounceWindow | src/main/java/com/example/chatservice/message/service/HotRoomDetectionService.java:71-76 | after a write at `t`, a call at `now` skips iff `now - t` is below the debounce |
| HotRoom.HotRoomDetectionService.constructor | src/main/java/com/example/chatservice/property/HotRoomProperty.java:13-17 | thresholds 5 and 2 and a 3-second debounce, on empty keys |
| HotRoom.HotRoomDetectionService.IsHotRoom | src/main/java/com/example/chatservice/message/service/HotRoomDetectionService.java:24-61 | the counter grows by one (an absent counter counts from 0), the decision is taken on the new count and the stored mode, the mode is written as decided, and the answer equals "the mode is now `hot`" |
| HotRoom.HotRoomDetectionService.ShouldSkipHotUpdate | src/main/java/com/example/chatservice/message/service/HotRoomDetectionService.java:63-84 | the answer is the debounce test on the stored timestamp; when it skips, nothing changes; otherwise `now` is stored and the answer is false |
| HotRoom.HotRoomDetectionService.ExpireCounter | src/main/java/com/example/chatservice/message/service/HotRoomDetectionService.java:37 | the counter's window TTL drops only that key |
| HotRoom.HotRoomDetectionService.ExpireMode | src/main/java/com/example/chatservice/message/service/HotRoomDetectionService.java:50-56 | the mode TTL drops only that key |
| HotRoom.HotRoomDetectionService.ExpireLastApplied | src/main/java/com/example/chatservice/message/service/HotRoomDetectionService.java:82 | the last-applied TTL drops only that key |
| PendingFlush.ScheduledKey | src/main/java/com/example/chatservice/message/service/PendingLastMessageFlushService.java:215-217 | the flag key is in the `chat:` namespace |
| PendingFlush.ScheduledKeyInjective | src/main/java/com/example/chatservice/message/service/PendingLastMessageFlushService.java:215-217 | two rooms never share a flag key |
| PendingFlush.CachedValue | src/main/java/com/example/chatservice/message/service/PendingLastMessageFlushService.java:195-213 | the new id replaces a missing, unparsable or smaller value; a numeric value is never replaced by a smaller one |
| PendingFlush.CacheRunHoldsMax | src/main/java/com/example/chatservice/message/service/PendingLastMessageFlushService.java:195-206 | whatever order the ids arrive in, the cache ends up holding the largest of them and the earlier value |
| PendingFlush.CacheKeepsLargerExample | src/main/java/com/example/chatservice/message/service/PendingLastMessageFlushService.java:200-202 | an illustration: caching 5, then 4, keeps 5; then caching 6 writes 6 (the all-inputs statement is `CacheRunHoldsMax`) |
| PendingFlush.PendingId | src/main/java/com/example/chatservice/message/service/PendingLastMessageFlushService.java:172-181 | a pending id exists only when the field is present and parses |
| PendingFlush.FlushedAll | src/main/java/com/example/chatservice/message/service/PendingLastMessageFlushService.java:103-110 | flushing a set of rooms keeps the number of rows |
| PendingFlush.FlushedAllStep | src/main/java/com/example/chatservice/message/service/PendingLastMessageFlushService.java:103-110 | flushing one more room composes with the rooms already flushed |
| PendingFlush.FlagsHaveJobsSchedule | src/main/java/com/example/chatservice/message/service/PendingLastMessageFlushService.java:126-130 | setting an absent flag together with a queued job keeps "every flagged room has a queued flush" |
| PendingFlush.FlagsHaveJobsFire | src/main/java/com/example/chatservice/message/service/PendingLastMessageFlushService.java:143-145 | a job leaving the queue together with its room's flag keeps that invariant |
| PendingFlush.PendingLastMessageFlushService.CachePendingMax | src/main/java/com/example/chatservice/message/service/PendingLastMessageFlushService.java:195-213 | the room's field becomes the cached value and nothing else changes |
| PendingFlush.PendingLastMessageFlushService.ScheduleFlush | src/main/java/com/example/chatservice/message/service/PendingLastMessageFlushService.java:120-138 | always caches the max; queues one job exactly when the flag was absent and then sets it; a flagged room is never queued again; keeps every flagged room backed by a queued job |
| PendingFlush.PendingLastMessageFlushService.Flush | src/main/java/com/example/chatservice/message/service/PendingLastMessageFlushService.java:170-193 | writes the pending id when it parses (no write when it is absent or unparsable) and deletes both the field and the flag; nothing else changes |
| PendingFlush.PendingLastMessageFlushService.FlushIfPending | src/main/java/com/example/chatservice/message/service/PendingLastMessageFlushService.java:158-168 | without a pending field nothing changes; otherwise exactly the effect of a flush |
| PendingFlush.PendingLastMessageFlushService.FireScheduled | src/main/java/com/example/chatservice/message/service/PendingLastMessageFlushService.java:140-152 | one consumer turn: the due job leaves the queue and its room is flushed |
| PendingFlush.PendingLastMessageFlushService.ExpireScheduledFlag | src/main/java/com/example/chatservice/message/service/PendingLastMessageFlushService.java:126 | the flag's TTL drops only that flag |
| PendingFlush.PendingLastMessageFlushService.ExpirePendingHash | src/main/java/com/example/chatservice/message/service/PendingLastMessageFlushService.java:204 | the hash TTL drops every pending field |
| PendingFlush.PendingLastMessageFlushService.FlushAllPendingMessages | src/main/java/com/example/chatservice/message/service/PendingLastMessageFlushService.java:95-114 | every pending room is flushed whatever its flag, so nothing stays pending; their flags are cleared and the rows are the combined flush of the snapshot |
| PendingFlush.PendingLastMessageFlushService.RecoverPendingFlushes | src/main/java/com/example/chatservice/message/service/PendingLastMessageFlushService.java:224-272 | exactly the pending rooms without a flag are handled: a numeric value is flushed once, an unparsable one is deleted without a write; rooms with a live flag, the flags and the queue are untouched |
| SessionManager.DirectoryKey | src/main/java/com/example/chatservice/common/SessionManager.java:37 | the directory key is `user:` followed by the id's decimal text |
| SessionManager.DirectoryKeyInjective | src/main/java/com/example/chatservice/common/SessionManager.java:37 | two users never share a directory key |
| SessionManager.Directory.Lookup | src/main/java/com/example/chatservice/message/service/MessageDeliveryService.java:37 | the lookup finds a server exactly when the user has an entry, and returns that entry |
| SessionManager.FrameFor | src/main/java/com/example/chatservice/common/SessionManager.java:60-78 | one frame, on the user's session, exactly when the session is present, open and has a lock and the write succeeds; otherwise none |
| SessionManager.FramesFor | src/main/java/com/example/chatservice/message/kafka/ChatMessageConsumer.java:99-108 | a send loop writes at most one frame per user, each with the same payload, to a listed user who can be reached |
| SessionManager.CountRaising | src/main/java/com/example/chatservice/message/kafka/ChatMessageConsumer.java:104-106 | at most one failure per user |
| SessionManager.SessionManager.constructor | src/main/java/com/example/chatservice/common/ServerInfoProvider.java:26 | the server address is `localhost:` plus the port; the maps are empty |
| SessionManager.SessionManager.AddSession | src/main/java/com/example/chatservice/common/SessionManager.java:29-50 | the session replaces any earlier one; a lock is created only if absent; the directory maps the user to this server unless the write fails, which is swallowed; the user is connected and the count grows only for a new user |
| SessionManager.SessionManager.RemoveSession | src/main/java/com/example/chatservice/common/SessionManager.java:52-58 | removes exactly the user's session and lock; the directory entry is deleted when the directory is up, and otherwise stays (a stale entry naming this server) while the failure is raised; other users are unchanged |
| SessionManager.SessionManager.TransportClosed | src/main/java/com/example/chatservice/common/SessionManager.java:64 | a session closed by the transport stays registered but cannot be sent to |
| SessionManager.SessionManager.SendToUser | src/main/java/com/example/chatservice/common/SessionManager.java:60-78 | appends exactly the frame that `FrameFor` gives; an I/O failure is swallowed and only an unchecked failure reaches the caller; the registry is unchanged |
| SessionManager.SessionManager.IsUserConnected | src/main/java/com/example/chatservice/common/SessionManager.java:80-82 | holds iff the user is a key of the session map, open or closed; while the registry is consistent, iff the user also holds a lock; a connected user means at least one session |
| SessionManager.SessionManager.GetSessionCount | src/main/java/com/example/chatservice/common/SessionManager.java:84-86 | the size of the session map (saturated at the `int` maximum), and never above the number of locks |
| MessageDelivery.CreateMessageData | src/main/java/com/example/chatservice/message/service/MessageDeliveryService.java:160-168 | exactly the five keys `messageId`, `senderId`, `content`, `chatRoomId`, `sentAt`, each taken from the message |
| MessageDelivery.ForwardBody | src/main/java/com/example/chatservice/message/service/MessageDeliveryService.java:71-72 | the message data plus `receiverId`, or plus `receiverIds` holding the same ids in order |
| MessageDelivery.NormalizeServerAddress | src/main/java/com/example/chatservice/message/service/MessageDeliveryService.java:170-180 | a `127.0.0.1:` prefix becomes `localhost:` with the port kept; every other address, the empty one included, is unchanged; the result never starts with `127.0.0.1:` |
| MessageDelivery.NormalizeIdempotent | src/main/java/com/example/chatservice/message/service/MessageDeliveryService.java:170-180 | normalising twice is the same as normalising once |
| MessageDelivery.ForwardUrl | src/main/java/com/example/chatservice/message/service/MessageDeliveryService.java:74 | the URL is `http://`, the normalised address, then `/internal/message` for a single receiver or `/internal/message/batch` (line 129) for a batch |
| MessageDelivery.RetryDelaysShape | src/main/java/com/example/chatservice/message/service/MessageDeliveryService.java:86-101 | when every attempt fails, attempt `n` is followed by `max(0, maxRetries - n - 1)` retries, the k-th waiting `baseDelayMs * (n + k + 1)` |
| MessageDelivery.FailedForwardChain | src/main/java/com/example/chatservice/message/service/MessageDeliveryService.java:86-101 | an always-failing forward is attempted `max(1, maxRetries)` times, and the delays strictly increase |
| MessageDelivery.MessageDeliveryService.RetryAfterFailure | src/main/java/com/example/chatservice/message/service/MessageDeliveryService.java:87-97 | a retry is scheduled iff the incremented count is below `maxRetries`, for the same target, receivers and message, with the incremented count and delay `baseDelayMs * count` |
| MessageDelivery.MessageDeliveryService.AttemptEffect | src/main/java/com/example/chatservice/message/service/MessageDeliveryService.java:65-103 | one POST of the forward body to the forward URL; no frame and no exception reach the caller; success schedules nothing |
| MessageDelivery.MessageDeliveryService.DeliveryEffect | src/main/java/com/example/chatservice/message/service/MessageDeliveryService.java:35-59 | a failing directory read (line 37): nothing sent and the exception escapes; no entry: nothing; an entry naming this server: exactly one local send and no post; another server: no frame, one post to it, and any retry at count 1 |
| MessageDelivery.MessageDeliveryService.Attempt | src/main/java/com/example/chatservice/message/service/MessageDeliveryService.java:65-103 | logs the post and schedules the retry that the attempt's outcome calls for |
| MessageDelivery.MessageDeliveryService.DeliverMessage | src/main/java/com/example/chatservice/message/service/MessageDeliveryService.java:35-59 | the frames, posts, retries and exception are those of `DeliveryEffect`, including the uncaught directory-read failure; the registry is unchanged |
| MessageDelivery.MessageDeliveryService.DeliverMessageLocally | src/main/java/com/example/chatservice/message/service/MessageDeliveryService.java:108-112 | one local send of the message data, whatever the directory says |
| MessageDelivery.MessageDeliveryService.DeliverMessageBatch | src/main/java/com/example/chatservice/message/service/MessageDeliveryService.java:117-158 | one post of the batch body to `/internal/message/batch`; on failure, the same retry rule |
| MessageDelivery.MessageDeliveryService.RunScheduledRetry | src/main/java/com/example/chatservice/message/service/MessageDeliveryService.java:95-97 | the due retry leaves the queue and its attempt is made at its count |
| ChatMessageConsumer.EventPayload | src/main/java/com/example/chatservice/message/kafka/ChatMessageConsumer.java:88-94 | the same five-field payload built from the event, and an exception exactly when any of the five fields (ids, text, time) is null |
| ChatMessageConsumer.ServersOf | src/main/java/com/example/chatservice/message/kafka/ChatMessageConsumer.java:60-64 | the directory entries, aligned by index with the participants |
| ChatMessageConsumer.LocalRecipients | src/main/java/com/example/chatservice/message/kafka/ChatMessageConsumer.java:67-82 | never contains the sender (a null sender id skips nobody) and has no more entries than there are participants |
| ChatMessageConsumer.LocalRecipientsExactly | src/main/java/com/example/chatservice/message/kafka/ChatMessageConsumer.java:67-82 | a user is selected iff some participant is that user, is not the sender, and has a directory entry equal to this server; a missing entry excludes it |
| ChatMessageConsumer.ChatMessageConsumer.SelectLocalUsers | src/main/java/com/example/chatservice/message/kafka/ChatMessageConsumer.java:67-82 | the index loop builds exactly `LocalRecipients` |
| ChatMessageConsumer.ChatMessageConsumer.DeliverAll | src/main/java/com/example/chatservice/message/kafka/ChatMessageConsumer.java:96-111 | one send per user in order, and a failing send does not stop the rest; the failures are counted, and successes plus failures equal the list length |
| ChatMessageConsumer.ChatMessageConsumer.ConsumeMessage | src/main/java/com/example/chatservice/message/kafka/ChatMessageConsumer.java:42-122 | no participants (including a null room id, which matches no row): acknowledged and nothing sent; a directory or payload exception: not acknowledged and nothing sent; otherwise every local recipient gets one send with the same payload, and then the event is acknowledged |
| AsyncDelivery.Others | src/main/java/com/example/chatservice/message/service/AsyncMessageDeliveryService.java:60-71 | at most one receiver per participant |
| AsyncDelivery.OthersExactly | src/main/java/com/example/chatservice/message/service/AsyncMessageDeliveryService.java:60-71 | a user is a receiver iff some active participant is that user and is not the sender |
| AsyncDelivery.GroupRunShape | src/main/java/com/example/chatservice/message/service/AsyncMessageDeliveryService.java:60-71 | the sender is never passed to `deliverMessage`; every frame goes to a called receiver; the calls are the non-sender participants in order, all of them when none threw |
| AsyncDelivery.RaisedStays | src/main/java/com/example/chatservice/message/service/AsyncMessageDeliveryService.java:48-50 | once a call throws, the remaining participants get nothing |
| AsyncDelivery.DirectoryFailureEndsGroup | src/main/java/com/example/chatservice/message/service/AsyncMessageDeliveryService.java:60-71 | a failing directory read for a participant ends the loop there: the run throws, that participant is the last call, and nothing is sent to it or after it |
| AsyncDelivery.AsyncMessageDeliveryService.DeliverMessageToChatRoom | src/main/java/com/example/chatservice/message/service/AsyncMessageDeliveryService.java:53-72 | the loop's frames, posts, retries, calls and exception are exactly those of `GroupRunOf` over the room's active members, with each user's directory-read, send and POST outcome as parameters |
| AsyncDelivery.AsyncMessageDeliveryService.DeliverMessageAsync | src/main/java/com/example/chatservice/message/service/AsyncMessageDeliveryService.java:30-51 | a missing message delivers nothing; a receiver gets exactly one `deliverMessage` and there is no fan-out; otherwise the group path runs; no exception escapes |
| InternalController.SentAtText | src/main/java/com/example/chatservice/message/controller/InternalMessageController.java:43 | a missing or null `sentAt` becomes the empty text |
| InternalController.ParsePayload | src/main/java/com/example/chatservice/message/controller/InternalMessageController.java:28-44 | succeeds iff the three ids parse as longs and `content` is non-null, giving the five-key payload |
| InternalController.ParseSingle | src/main/java/com/example/chatservice/message/controller/InternalMessageController.java:27-44 | succeeds iff `receiverId` parses as a long and the payload parses |
| InternalController.BatchIds | src/main/java/com/example/chatservice/message/controller/InternalMessageController.java:67-70 | succeeds iff `receiverIds` is a list whose items are all `int`-sized numbers; the ids keep their order and length |
| InternalController.ParseBatch | src/main/java/com/example/chatservice/message/controller/InternalMessageController.java:67-88 | succeeds iff both the receiver list and the payload parse |
| InternalController.ParsePayloadOfForward | src/main/java/com/example/chatservice/message/controller/InternalMessageController.java:28-44 | a forward body is parsed back into the message's fields |
| InternalController.SingleForwardRoundTrip | src/main/java/com/example/chatservice/message/controller/InternalMessageController.java:25-55 | what a single forward posts, the single endpoint parses back into the same receiver and fields |
| InternalController.BatchForwardRoundTrip | src/main/java/com/example/chatservice/message/controller/InternalMessageController.java:64-107 | a batch forward whose ids all fit an `int` is parsed back into the same receivers, in order |
| InternalController.BatchForwardRejectsWideId | src/main/java/com/example/chatservice/message/controller/InternalMessageController.java:67-70 | one id beyond the `int` range makes the whole batch fail |
| InternalController.InternalMessageController.ReceiveMessageFromOtherServer | src/main/java/com/example/chatservice/message/controller/InternalMessageController.java:25-55 | a parse failure is rejected with nothing sent; otherwise exactly one send to the receiver, and the request is rejected iff that send throws |
| InternalController.InternalMessageController.ReceiveMessageBatch | src/main/java/com/example/chatservice/message/controller/InternalMessageController.java:64-107 | a parse failure is rejected with nothing sent; otherwise every receiver gets one send, in order, with the same payload; failures are skipped and the success count is at most the number of receivers |
| InternalController.InternalMessageController.SendToEach | src/main/java/com/example/chatservice/message/controller/InternalMessageController.java:91-99 | the batch loop's frames, and a success count equal to the receivers minus the sends that threw |
| WebSocketHandler.FirstWithPrefix | src/main/java/com/example/chatservice/common/ws/WebSocketHandler.java:138-148 | the index of the first parameter with the prefix, or the length when there is none |
| WebSocketHandler.QueryParam | src/main/java/com/example/chatservice/common/ws/WebSocketHandler.java:137-148 | no value without a query; otherwise the text after `name=` in the first `&`-separated parameter that starts with it |
| WebSocketHandler.ExtractUserId | src/main/java/com/example/chatservice/common/ws/WebSocketHandler.java:129-155 | rejects a null URI, a missing `userId=`, an empty value and an unparsable value, each with its own error; otherwise the parsed first `userId=` value |
| WebSocketHandler.ExtractChatRoomId | src/main/java/com/example/chatservice/common/ws/WebSocketHandler.java:157-184 | never fails: a room exactly when the first `chatRoomId=` value is present, non-empty and parses, and then that value |
| WebSocketHandler.ConnectParams | src/main/java/com/example/chatservice/common/ws/WebSocketHandler.java:138 | a client query whose first parameter is `userId=` and whose parameters contain no `&` |
| WebSocketHandler.QueryParamOfJoin | src/main/java/com/example/chatservice/common/ws/WebSocketHandler.java:138-148 | in a joined query, the first parameter named `name` is the one found |
| WebSocketHandler.ExtractFromQuery | src/main/java/com/example/chatservice/common/ws/WebSocketHandler.java:129-184 | a query carrying valid `userId` and `chatRoomId` texts is read as those ids |
| WebSocketHandler.ConnectQueryRoundTrip | src/main/java/com/example/chatservice/common/ws/WebSocketHandler.java:129-184 | a connection query built from a user id and an optional room id is parsed back into exactly those |
| WebSocketHandler.Resolve | src/main/java/com/example/chatservice/common/ws/WebSocketHandler.java:66-108 | the session's room takes precedence; the frame's room is used and stored only when the session has none; `content` is the field when present, else the whole text; plain text uses the whole text; no room means the error frame |
| WebSocketHandler.RoomIsSticky | src/main/java/com/example/chatservice/common/ws/WebSocketHandler.java:85-89 | with a room in the session, the frame never changes it and the message goes to that room |
| WebSocketHandler.PlainTextFrame | src/main/java/com/example/chatservice/common/ws/WebSocketHandler.java:96-108 | a non-JSON frame is sent whole to the session's room, or answered with the error frame when there is none |
| WebSocketHandler.WebSocketHandler.AfterConnectionEstablished | src/main/java/com/example/chatservice/common/ws/WebSocketHandler.java:27-57 | a rejected user id closes the session with BAD_DATA and the error text and rethrows, registering nothing; otherwise the attributes are stored and the new session, lock map, lock counter and directory (written when it is up, unchanged when the write fails) are exactly those of `addSession`, with no frame sent |
| WebSocketHandler.WebSocketHandler.HandleTextMessage | src/main/java/com/example/chatservice/common/ws/WebSocketHandler.java:59-117 | follows `Resolve`: the room is stored as decided; one service call or the matching error frame; a failing service call adds the failure frame |
| WebSocketHandler.WebSocketHandler.AfterConnectionClosed | src/main/java/com/example/chatservice/common/ws/WebSocketHandler.java:119-127 | the session is removed only when it carries a user id, and a directory failure of `removeSession` escapes; otherwise nothing changes |
| ChatService.InsertSorted | src/main/java/com/example/chatservice/chat/sercivce/ChatService.java:134-140 | inserting into a strictly increasing list keeps it strictly increasing with exactly the old elements and the new one |
| ChatService.NormalizeUserIds | src/main/java/com/example/chatservice/chat/sercivce/ChatService.java:134-140 | strictly increasing (so no duplicates), no nulls, and exactly the non-null input ids |
| ChatService.SortedUnique | src/main/java/com/example/chatservice/chat/sercivce/ChatService.java:134-140 | two strictly increasing lists with the same elements are equal |
| ChatService.NormalizeDependsOnSet | src/main/java/com/example/chatservice/chat/sercivce/ChatService.java:134-140 | inputs with the same set of non-null ids normalise identically, whatever the order and repetition |
| ChatService.NormalizeIdempotent | src/main/java/com/example/chatservice/chat/sercivce/ChatService.java:134-140 | normalising a normalised list changes nothing |
| ChatService.ShowsSplitBack | src/main/java/com/example/chatservice/chat/sercivce/ChatService.java:110-112 | splitting the raw key on `_` gives back each id's text |
| ChatService.RawJoinInjective | src/main/java/com/example/chatservice/chat/sercivce/ChatService.java:110-112 | distinct id lists give distinct raw keys |
| ChatService.RawKeyIdentifiesMembers | src/main/java/com/example/chatservice/chat/sercivce/ChatService.java:107-112 | two inputs give the same raw key iff they have the same set of non-null ids |
| ChatService.RawKey | src/main/java/com/example/chatservice/chat/sercivce/ChatService.java:110-112 | empty exactly when no non-null id is given; otherwise splitting it on `_` gives back the decimal texts of the normalised ids |
| ChatService.ChatTypeOf | src/main/java/com/example/chatservice/chat/sercivce/ChatService.java:62-65 | IM exactly for one user, DIRECT exactly for two, GROUP for every other size |
| ChatService.RoomMembers | src/main/java/com/example/chatservice/chat/sercivce/ChatService.java:44-46 | the creator plus the requested ids, normalised: strictly increasing and containing the creator |
| ChatService.DistinctCount | src/main/java/com/example/chatservice/chat/sercivce/ChatService.java:63-66 | a strictly increasing list has as many distinct ids as entries |
| ChatService.CreatedRoomIsIm | src/main/java/com/example/chatservice/chat/sercivce/ChatService.java:63-66 | a room with only its creator is IM |
| ChatService.CreatedRoomIsDirect | src/main/java/com/example/chatservice/chat/sercivce/ChatService.java:63-66 | a room with its creator and exactly one other user is DIRECT |
| ChatService.CreatedRoomIsGroup | src/main/java/com/example/chatservice/chat/sercivce/ChatService.java:63-66 | a room with at least two users besides its creator is GROUP |
| ChatService.SameMembersSameKey | src/main/java/com/example/chatservice/chat/sercivce/ChatService.java:44-61 | any two create requests naming the same members, in any order or repetition and whoever creates, get the same key |
| ChatService.RoomsWithKey | src/main/java/com/example/chatservice/chat/sercivce/ChatService.java:101-104 | exactly the rooms whose key equals the given one |
| ChatService.Memberships | src/main/java/com/example/chatservice/chat/sercivce/ChatService.java:75-94 | one active row with a null pointer per user, in order and with consecutive ids; distinct users when the ids are strictly increasing |
| ChatService.ReadStatuses | src/main/java/com/example/chatservice/chat/sercivce/ChatService.java:88-93 | one read status with a null last-read id per user |
| ChatService.FirstUnknown | src/main/java/com/example/chatservice/chat/sercivce/ChatService.java:75-80 | the position of the first unknown user, and every earlier user is known |
| ChatService.MembershipRows | src/main/java/com/example/chatservice/chat/sercivce/ChatService.java:247-248 | exactly the rows linking that user and room, active or not |
| ChatService.ActiveUserIds | src/main/java/com/example/chatservice/chat/sercivce/ChatService.java:253-259 | exactly the users with an active row in the room |
| ChatService.FindActiveAppend | src/main/java/com/example/chatservice/chat/sercivce/ChatService.java:217-223 | an appended active row appears at the end of the room's active members, under the table order the model gives the query |
| ChatService.LeftRowInactive | src/main/java/com/example/chatservice/chat/sercivce/ChatService.java:250-259 | after the leaver's only row is marked left, the leaver is no longer active and every other user's status is unchanged |
| ChatService.ChatStore.CreateNewRoom | src/main/java/com/example/chatservice/chat/sercivce/ChatService.java:62-95 | the room is saved with the size's type and the given key under a fresh id; an unknown user fails with `UserNotFound` and rolls back the room and rows, keeping the identity values drawn; otherwise one membership and one read status per user |
| ChatService.ChatStore.CreateChatRoom | src/main/java/com/example/chatservice/chat/sercivce/ChatService.java:41-99 | an existing room with the key is returned with no rows added (two such rooms: a non-unique-result error); an unknown user fails with `UserNotFound` and rolls the rows back; otherwise a new room of the size's type with one membership and one read status per distinct user |
| ChatService.ChatStore.AddMembers | src/main/java/com/example/chatservice/chat/sercivce/ChatService.java:75-94 | rows and read statuses are added for the users before the first unknown one, which stops the loop |
| ChatService.ChatStore.JoinChatRoom | src/main/java/com/example/chatservice/chat/sercivce/ChatService.java:204-235 | `UserNotFound`, then `ChatRoomNotFound`, with nothing changed; otherwise one new active row at the end of the room's members, and a read status only if there was none; rooms and keys unchanged |
| ChatService.ChatStore.LeaveChatRoom | src/main/java/com/example/chatservice/chat/sercivce/ChatService.java:240-264 | `UserNotFound`, `ChatRoomNotFound`, `UserNotJoined` for a non-member, with nothing changed; otherwise the member's row is marked left and the key is recomputed from the remaining active members |
| Sharding.GetShardKey | src/main/java/com/example/chatservice/sharding/MessageShardKeySelector.java:5-10 | null gives shard 0; otherwise the Java remainder of the id by 2 |
| Sharding.ShardKeyRange | src/main/java/com/example/chatservice/sharding/MessageShardKeySelector.java:9 | the shard is -1, 0 or 1: -1 exactly for odd negative ids, 0 for null and even ids, 1 for odd non-negative ids |
| Sharding.SameParitySameShard | src/main/java/com/example/chatservice/sharding/MessageShardKeySelector.java:9 | ids of the same parity and the same sign share a shard |
| Sharding.OppositeSignsSplit | src/main/java/com/example/chatservice/sharding/MessageShardKeySelector.java:9 | -1 and 1 have the same parity but land on different shards |
| Sharding.ToLongSafe | src/main/java/com/example/chatservice/sharding/ShardingAspect.java:57-66 | the value's text parsed as a `long`, and 0 for null or unparsable text; a non-zero result always comes from a valid parse |
| Sharding.ToLongSafeOfLong | src/main/java/com/example/chatservice/sharding/ShardingAspect.java:57-66 | a `long` given as a number or as its text is returned as itself |
| Sharding.ToLongSafeOfWideNumber | src/main/java/com/example/chatservice/sharding/ShardingAspect.java:61-65 | a number beyond the `long` range falls back to 0 |
| Sharding.ResolveShardKey | src/main/java/com/example/chatservice/sharding/ShardingAspect.java:32-55 | a blank or null expression uses the first argument safely converted, or 0 when there are no arguments; otherwise the safely converted expression value |
| Sharding.FirstArgumentIsKey | src/main/java/com/example/chatservice/sharding/ShardingAspect.java:43-49 | with no expression, a numeric room id as the first argument is the shard key |
| Sharding.Exec | src/main/java/com/example/chatservice/sharding/ShardingAspect.java:20-30 | an empty body routes nothing and keeps the binding |
| Sharding.FlatBodyUsesOneShard | src/main/java/com/example/chatservice/sharding/ShardingAspect.java:24-26 | a body without nested sharded calls routes every query to the bound key's shard and leaves the binding as it was |
| Sharding.ScopedKeepsBinding | src/main/java/com/example/chatservice/sharding/ShardingAspect.java:24-29 | with set-and-restore scoping, a body that returns leaves the binding as it found it |
| Sharding.NestedCallUnbindsOuter | src/main/java/com/example/chatservice/sharding/ShardingAspect.java:24-29 | as written, for every outer key, nested call and body: after a nested sharded call returns, the outer key is unbound and the next routing lookup (a query on a newly obtained connection) goes to shard 0 |
| Sharding.NestedCallMovesShard | src/main/java/com/example/chatservice/sharding/ShardingAspect.java:24-29 | an illustration of the code as written: an outer call on room 1 (shard 1) whose body makes a nested call on room 2 and then queries routes that query to shard 0 (the all-inputs statement is `NestedCallUnbindsOuter`) |
| Sharding.ScopedNestedCallKeepsOuter | src/main/java/com/example/chatservice/sharding/ShardingAspect.java:24-29 | corrected: with the previous key restored in `finally`, the query after a nested call routes to the outer key's shard |
| Sharding.ShardContext.CurrentShard | src/main/java/com/example/chatservice/component/RoutingDataSource.java:22-27 | routing applies the selector to `getCurrentThreadChatId`: unbound routes to shard 0, a non-negative bound key to its remainder |
| Sharding.ShardContext.HandleSharding | src/main/java/com/example/chatservice/sharding/ShardingAspect.java:20-30 | the body runs with the resolved key bound, and the queries and exception are those of `Exec`; afterwards the key is unbound whether the body returned or threw |
| Sharding.ShardContext.HandleShardingScoped | src/main/java/com/example/chatservice/sharding/ShardingAspect.java:20-30 | corrected: the same, but the previous binding is restored afterwards |
| Sharding.ShardContext.Proceed | src/main/java/com/example/chatservice/sharding/ShardingAspect.java:25-26 | running the wrapped body routes its queries, raises its exception and leaves the binding exactly as `Exec` says |

## Left out

- Concurrency:
  - the `ConcurrentHashMap`s and the `synchronized` lock block of `SessionManager`;
  - `@Async` executors;
  - the blocking consume loop (one turn is `FireScheduled`);
  - the `ThreadLocal` itself, which is one field of `ShardContext`.
  - Every operation runs atomically, one after another.
- Redis, Kafka, HTTP, JPA and WebSocket clients are maps, sets, row sequences and logs. Key TTLs are the `Expire…` methods, with no clock.
- Time is a `now` parameter; the stored timestamps and the `leavedAt` values are plain numbers.
- Jackson: the parse of a frame is a parameter, and a request body is already a value map. Serialising a frame to JSON is not modelled; the payload map is recorded instead.
- JavaLang.Value: a JSON value is null, a whole number, a string or a list. Jackson's `Map<String, Object>` can also hold a `Boolean`, a `Double` or a nested map, whose `toString` the model does not write out, so the inputs where those matter are not stated: a frame `{"chatRoomId": 1.0}` (`Long.valueOf("1.0")` throws and the failure frame is sent, WebSocketHandler.java:86), a frame whose `content` is an object (it is sent as the map's `toString`, e.g. `{a=1}`, WebSocketHandler.java:78), and an internal request with `"messageId": 5.0` (rejected, InternalMessageController.java:28).
- SHA-256 and its hex encoding are the `digest` function parameter of `ChatStore`. Distinct raw keys are proved distinct, but digest collisions are not reasoned about.
- SpEL: a non-blank expression's value is the `evaluated` field of a sharded call. Parse or evaluation exceptions from SpEL are not modelled.
- `Long.parseLong` is modelled on ASCII digits with an optional `+` or `-` sign; Unicode digits are not modelled. The query is taken already percent-decoded, as `URI.getQuery` returns it.
- A database failure inside `flush` (after which `finally` still deletes both keys) is not modelled.
- Non-string values in the pending hash are not modelled.
- Non-numeric field names in the pending hash (the "invalid chatRoomId" catch of recovery) are not modelled, because the hash is keyed by room id.
- The rethrow in `addSession` for a failing local map update is not modelled; only the swallowed directory failure is.
- A null server address is not modelled, because addresses are strings.
- `Message` getters are assumed: the delivery side reads a message's id, sender, text, room and creation time. The consumer's `getSentAt()` is read as the event's creation time.
- Iteration order of hashed collections:
  - `createChatRoom` walks a `HashSet` of the ids; the model walks them in ascending order, so the row order and the unknown user reported (when several are unknown) follow ascending ids;
  - the pending-hash loops pick rooms in any order, and are proved for every order.
- ChatService.ChatStore.LeaveChatRoom: `UserChatRepository` (UserChatRepository.java:52-54) declares only `existsByUserAndChatRoomAndLeavedAtIsNull` and `findByUserAndChatRoomAndLeavedAtIsNull`, not the `findByUserAndChatRoom` that ChatService.java:247 calls. The model reads the missing finder at its name's meaning: any row linking the pair, active or not, with more than one row a non-unique-result error. Under the declared active-only finder instead, a user who already left and leaves again would get `UserNotJoined` (the model re-marks the row and recomputes the key), and a user who left and rejoined would get `Ok` (the model reports `NonUniqueResult`).
- ChatService.RoomsWithKey: `ChatRepository` (ChatRepository.java:8) declares no methods, so `findChatRoomByChatKey` (ChatService.java:103) does not exist and `findById` returns `Optional<Chat>`, not a `ChatRoom`. The model reads `findChatRoomByChatKey` as the rooms whose key equals the argument, with more than one a non-unique-result error, and `findById` as a lookup of the room.
- UserChatRepository.FindActiveByChatRoomWithUser: the JPQL (UserChatRepository.java:35) has no `ORDER BY`, so the database promises no row order. The model returns table order; that choice, not the query, gives `ChatService.FindActiveAppend` its "at the end", the new row's position after `ChatService.ChatStore.JoinChatRoom`, and the call order of `AsyncDelivery.GroupRunShape` and `AsyncDelivery.AsyncMessageDeliveryService.DeliverMessageToChatRoom` (hence which members are reached before a throw ends the group loop). The set of rows returned does not depend on it.
- JavaLang.Split: Java's `String.split` drops trailing empty pieces (`"&".split("&")` has length 0); the model keeps them, so "at least one part" is the model's, not Java's. `WebSocketHandler.QueryParam` is unaffected: a kept trailing piece is empty and never starts with `name=`, so the first matching piece is the same in both readings. In `ChatService` the key's parts are decimal texts, never empty, so nothing is dropped there.
- ChatService.ChatStore.JoinChatRoom: joining twice adds a second row, and the room key is not recomputed, as in the code. The tests' `UserAlreadyJoinedException` is not in the code.
- InternalController.BatchIds: the `List<Integer>` cast rejects a receiver id beyond the `int` range, as in the code. `BatchForwardRejectsWideId` states this.
- Sharding.GetShardKey: an odd negative id maps to shard -1. The configured shard data sources are keyed 0..n-1 (`MessageShardDataSourceConfig.java:33-43`), so that lookup has no data source; the data source lookup itself is not modelled.
- SessionManager.SessionManager.GetSessionCount: a map larger than `Integer.MAX_VALUE` is taken to report the maximum, since `ConcurrentHashMap.size()` saturates.
- Routing is modelled per query: each `Query` step of `Exec` consults `CurrentShard`. `AbstractRoutingDataSource` asks `determineCurrentLookupKey` only when a connection is obtained, so statements that reuse a connection already held (inside one transaction) keep the shard of that connection. Connection acquisition and transactions are not modelled.
- The `SERVER_ERROR` close path of `afterConnectionEstablished` (an exception other than a rejected user id) is not modelled.

## Findings

| source | as written | input that shows it | evidently intended | confidence | as-written member | corrected member |
|---|---|---|---|---|---|---|
| src/main/java/com/example/chatservice/sharding/ShardingAspect.java:24-29 | `finally` calls `remove()` instead of restoring the key that was bound before the call; the `set`/`remove` pair around `proceed()` leaves nothing bound for the rest of an outer call once a nested call returns | an outer sharded call on room 1 whose body makes a nested sharded call on room 2 and then obtains a connection: the lookup sees no key and routes to shard 0, not shard 1 | hypothesis: the outer key is meant to govern the whole outer call, so the previous binding would be restored; `ScopedNestedCallKeepsOuter` explores that variant | not executed; low (latent: no method in the repository carries `@Sharding`, and a query that reuses a connection obtained before the nested call keeps its shard, since routing happens at connection acquisition) | Sharding.NestedCallUnbindsOuter | Sharding.ScopedNestedCallKeepsOuter |
