# chatapp in Dafny

A model of the message-synchronisation core of the chatapp repository, with
proofs about it. chatapp is an end-to-end-encrypted chat application: an
Express and socket.io server, a React client, and a terminal client. The
model covers the following parts:

- **The client's offline queue.** Add, list, remove, bump retries, clear,
  and the `flushUnsent` loop that replays entries through a send function.
  Entries are dropped after three retries.
- **The socket server.** Token authentication, room joins, and
  `send_message`: validate, persist, broadcast, acknowledge.
- **The chat page's list logic.** Send-or-enqueue, live-message merge
  without duplicate ids, status overwrite, unread selection, history
  decryption with the `<unable to decrypt>` sentinel, the typing set and
  date separators.
- **The REST routes.** Message history, conversations (both servers),
  register / verify-email / login, attachments and S3 keys, and the two
  `requireAuth` middlewares.
- **Supporting client utilities.** The key manager and its Base64 codec,
  relative times and initials, the conversation list page, the
  identity-provider token helper, and `getOrCreateUser`.
- **The terminal client's command state machine**, and the Base64
  migration script.

Each core source file becomes one module. State that the source updates in
place becomes a class:

- the IndexedDB store becomes `OfflineQueue.Queue`;
- the socket server becomes `Server.ChatServer`;
- the page's React state becomes `Chat.ChatSession`;
- the collections become `AuthRoutes.UserStore`, `UserHelper.ClerkUsers`,
  `Conversations.ConversationStore` and `Migrate.Collection`;
- the upload directory becomes `Attachments.UploadDir`, whose listing is kept in name order, as `fs.readdirSync` returns it;
- the stored key becomes `CryptoKeyManager.ChatKeyStore`;
- `lastRoom` becomes `CliClient.Client`;
- the list page's state becomes `ConversationsPage.Page`.

Pure code becomes functions, with lemmas relating them.

Anything outside the program enters as a parameter:

- the store's outcome (a new id, or a failure);
- `sendFn`, `verifyToken`, the password check and token signing;
- AES-GCM decryption, as a function returning an optional plaintext;
- the clock, in milliseconds, and random bytes;
- locale date formatting.

Shared modules:

- `Wrappers` holds `Option` and `Result`.
- `Wire` holds the message and claim records, and the `Stamp` a client holds as a message's `ts`.
- `JsText` holds the JavaScript string semantics the code depends on:
  truthiness, `||`, `String()`, `trim`, ASCII case mapping, `split`,
  `includes`, `startsWith`, hex, `parseInt` with NaN, and
  `encodeURIComponent`.
- `Base64` holds RFC 4648 section 4 encoding (`btoa`) and the WHATWG
  forgiving-base64 decoder (`atob`).
- `Ordering` holds the descending sort by key that the Mongo queries use.

## Model

| member | source | states |
|---|---|---|
| OfflineQueue.Queue.constructor | client/src/utils/offlineQueue.js:9-23 | The store starts empty, and auto-increment ids start at 1. |
| OfflineQueue.Queue.Add | client/src/utils/offlineQueue.js:28-43 | The new entry has a fresh id not in the store, the given conversation and payload, and `retries = 0`. Every other entry is unchanged. |
| OfflineQueue.Queue.ListUnsent | client/src/utils/offlineQueue.js:48-55 | Returns exactly the stored entries of that conversation, in ascending id order. |
| OfflineQueue.Queue.ListAll | client/src/utils/offlineQueue.js:60-66 | Returns exactly the stored entries, in ascending id order. |
| OfflineQueue.Queue.Remove | client/src/utils/offlineQueue.js:71-76 | Deletes that id only. |
| OfflineQueue.Bump | client/src/utils/offlineQueue.js:81-90 | That entry's retries go up by exactly 1. The keys and every other entry are unchanged, and an absent id is a no-op. |
| OfflineQueue.Queue.IncrementRetry | client/src/utils/offlineQueue.js:81-90 | The store becomes `Bump` of the old store. |
| OfflineQueue.Queue.FlushOne | client/src/utils/offlineQueue.js:104-124 | `retries >= 3` removes the entry without a send. Otherwise a truthy send removes it, and a false or throwing send bumps it. A remove that throws lands in the catch and bumps the entry instead, on either path. The result is true iff the entry was sent and removed. |
| OfflineQueue.Queue.FlushListed | client/src/utils/offlineQueue.js:102-125 | The loop leaves the store equal to the replay of the listed entries. `sent` and `failed` equal the replay's counts. Every send is recorded against its entry, and `Valid` keeps each entry's recorded sends within its retries and at most 3. |
| OfflineQueue.Queue.FlushNext | client/src/utils/offlineQueue.js:103-124 | One pass of the loop body. Store and send record move to the replay of one more entry, and later listed entries stay in the store unchanged. The result is true iff the entry was sent. |
| OfflineQueue.Queue.Flush | client/src/utils/offlineQueue.js:97-128 | `flushUnsent`: lists the conversation's entries, replays them, and returns the counts. Each entry has its own send outcome and remove outcome. The store and counters match the specification functions. |
| OfflineQueue.Queue.ClearAll | client/src/utils/offlineQueue.js:133-138 | The store is empty. |
| OfflineQueue.Scan | client/src/utils/offlineQueue.js:48-55 | The index scan yields exactly the matching entries in the id range, strictly ascending. |
| OfflineQueue.SentPlusFailed | client/src/utils/offlineQueue.js:98-127 | `sent + failed` equals the number of entries listed at the start. |
| OfflineQueue.StepOutcome | client/src/utils/offlineQueue.js:105-124 | One iteration touches only its own entry. A leaving entry is gone; a staying one is back with one more retry. |
| OfflineQueue.PrefixStep | client/src/utils/offlineQueue.js:102-125 | Replaying one more entry is one more step of the loop, for the store, the counters and the send record. |
| OfflineQueue.AttemptedStep | client/src/utils/offlineQueue.js:104-124 | The send record after one more entry is the record the loop body leaves. |
| OfflineQueue.RestUntouched | client/src/utils/offlineQueue.js:102-125 | Flushing one entry of a list of distinct entries leaves every later listed entry in the store as it was. |
| OfflineQueue.LastIsNew | client/src/utils/offlineQueue.js:52 | An ascending listing has distinct ids, so its last entry is new to the prefix. |
| OfflineQueue.ReplayFrames | client/src/utils/offlineQueue.js:97-128 | A flush adds no key and leaves every entry it did not list unchanged. |
| OfflineQueue.ReplayDrops | client/src/utils/offlineQueue.js:105-115 | Every listed entry that was sent, or had exhausted its retries, and whose remove completed is gone afterwards. |
| OfflineQueue.ReplayRetries | client/src/utils/offlineQueue.js:105-124 | Every listed entry that failed to send, or whose remove threw, is back with exactly one more retry. |
| Server.ChatServer.constructor | src/server.js:39-40 | No sockets, rooms, messages or broadcasts. |
| Server.ChatServer.Connect | src/server.js:43-53 | A connection without a token is refused with "token required". A failed verification is refused with "invalid token". Otherwise `socket.user` is the verified payload, and the socket is in the room named by its own id and no other. No message is written. |
| Server.ChatServer.Join | src/server.js:59-62 | Adds the room to the socket's room set and acks `{ok:true}`. Nothing else changes. |
| Server.ChatServer.SendMessage | src/server.js:64-102 | A falsy `roomId` acks "roomId required", with no write and no broadcast. A failed create acks "save_failed" and broadcasts nothing. A success stores the record, broadcasts it to every socket in the room (the sender included), and acks `{ok:true, id}` with the same id. A `roomId` equal to a connected socket's id reaches that socket. |
| Server.ChatServer.Disconnect | src/server.js:104-106 | The socket and its room set are forgotten. |
| Server.Record | src/server.js:68-89 | The stored sender id and e-mail come from `socket.user`. The room is the conversation, the status is `sent`, and there are no attachments. |
| Server.Event | src/server.js:68-95 | The broadcast event carries the stored record's id, sender, room, ciphertext, iv, tag and time. |
| Server.RecordIgnoresPayloadIdentity | src/server.js:65-89 | Two payloads with the same ciphertext, iv and tag store the same record, whatever identity or `text` they claim. Only `roomId` is validated. |
| Server.Members | src/server.js:92 | Definition of a room's recipients: the sockets whose room set holds it, the socket named by it included. |
| Server.JoinedSocketIsMember | src/server.js:59-62 | A socket that joined a room is among that room's recipients. |
| Chat.ChatSession.constructor | client/src/pages/Chat.jsx:61-73 | The page starts disconnected, with no messages, typing users, emissions or receipts. |
| Chat.ChatSession.SendMessage | client/src/pages/Chat.jsx:87-105 | Offline, the payload is queued once and nothing is emitted. Online, it is emitted and the result is true iff the ack is ok; a negative ack queues it too. |
| Chat.ChatSession.FlushEntryThroughSend | client/src/pages/Chat.jsx:100 | A flush whose send fails leaves both the old entry, with one more retry, and a new copy of the payload with no retries. |
| Chat.ChatSession.OnMessage | client/src/pages/Chat.jsx:199-239 | The list becomes the merge of the live message. A delivered receipt is emitted iff the message is fresh and from someone else. |
| Chat.ChatSession.OnMessageStatus | client/src/pages/Chat.jsx:263-269 | The list becomes the status overwrite. |
| Chat.ChatSession.LoadHistory | client/src/pages/Chat.jsx:145-153 | While mounted, the list becomes the decrypted history. |
| Chat.ChatSession.OnUserTyping | client/src/pages/Chat.jsx:242-256 | The typing list gains the e-mail unless it is the user's own or already present. |
| Chat.ChatSession.OnUserStoppedTyping | client/src/pages/Chat.jsx:258-260 | The typing list loses the e-mail. |
| Chat.ImportKeyFromBase64 | client/src/pages/Chat.jsx:36-43 | A falsy key is "missing key". Otherwise the import succeeds iff the key decodes to exactly 32 bytes. |
| Chat.ManagedKeyImports | client/src/pages/Chat.jsx:36-43 | Every key the key manager hands out imports. |
| Chat.Sender | client/src/pages/Chat.jsx:217 | Definition: `fromEmail \|\| from`. |
| Chat.IsMyMessage | client/src/pages/Chat.jsx:414-417 | Definition: a signed-in user whose e-mail equals the sender's, ignoring ASCII case. `MineIsNotOther` relates it to the receipt test. |
| Chat.MineIsNotOther | client/src/pages/Chat.jsx:414-417 | `isMyMessage` excludes "from someone else". The two are complementary once the sender and the user are known. |
| Chat.Merge | client/src/pages/Chat.jsx:203-234 | The held messages stay as they are, in order, and at most one message is added. |
| Chat.Decrypted | client/src/pages/Chat.jsx:147-151 | Only a record with both ciphertext and iv changes, and only in its text: the plaintext, or `<unable to decrypt>`. |
| Chat.Incoming | client/src/pages/Chat.jsx:209-214 | A fresh message keeps its id, sender and time. Its status defaults to `sent`, and its text is the decrypted one. |
| Chat.MergeKeepsIdsDistinct | client/src/pages/Chat.jsx:203-234 | A held id leaves the list unchanged. A fresh message is appended at the end. The list never gains a duplicate `String(_id)`. |
| Chat.MissingIdsCollide | client/src/pages/Chat.jsx:204 | Two messages without `_id` both compare as "undefined", so the second is dropped. |
| Chat.ApplyStatus | client/src/pages/Chat.jsx:263-268 | Status is set exactly on messages whose `String(_id)` equals `messageId`. Everything else is unchanged. |
| Chat.DeliveredOverwritesRead | client/src/pages/Chat.jsx:263-268 | There is no rank check: `delivered` replaces `read`. |
| Chat.UnreadIdsAppend | client/src/pages/Chat.jsx:311-316 | Unread selection distributes over concatenation, so it keeps list order. |
| Chat.UnreadIds | client/src/pages/Chat.jsx:311-316 | At most one id per held message. |
| Chat.UnreadIdsSingle | client/src/pages/Chat.jsx:311-316 | A message is selected iff it is from another sender and not `read`. |
| Chat.UnreadExcludesMine | client/src/pages/Chat.jsx:311-316 | Messages that are the user's own are never unread. |
| Chat.DecryptHistory | client/src/pages/Chat.jsx:146-152 | The history keeps its order and length, and each record is decrypted on its own. |
| Chat.HistoryTexts | client/src/pages/Chat.jsx:146-152 | Records without ciphertext and iv are untouched. The others get the plaintext or the sentinel. |
| Chat.AddTyping | client/src/pages/Chat.jsx:243-249 | Appends the e-mail iff it is not the user's and not present. |
| Chat.RemoveTyping | client/src/pages/Chat.jsx:253-259 | Keeps exactly the other entries, each as often as before. |
| Chat.RemoveTypingAppend | client/src/pages/Chat.jsx:253-259 | Removal distributes over concatenation, so the others keep their order. |
| Chat.TypingInvariant | client/src/pages/Chat.jsx:242-260 | Both handlers keep the typing list free of repeats and of the user's own e-mail. |
| Chat.HasDay | client/src/pages/Chat.jsx:423 | Definition: the message's stamp is truthy. |
| Chat.Group | client/src/pages/Chat.jsx:419-429 | Definition of the rows the render loop builds. `GroupKeepsMessages`, `GroupAppend` and `GroupSingle` state its behaviour. |
| Chat.GroupKeepsMessages | client/src/pages/Chat.jsx:420-429 | Grouping emits every message once, in order. |
| Chat.GroupAppend | client/src/pages/Chat.jsx:420-429 | Grouping a concatenation continues from the last day seen. |
| Chat.GroupSingle | client/src/pages/Chat.jsx:423-428 | A separator precedes a message exactly when its stamp is truthy and its date string differs from the last one seen. An unparsable stamp's date string is "Invalid Date". |
| Chat.WithSeparators | client/src/pages/Chat.jsx:420-429 | The `forEach` loop with `lastDate` produces the grouping. |
| MessagesRoute.Wanted | src/routes/messages.js:13-14 | Definition of the query: the conversation, and `ts < before` when `before` is given. |
| MessagesRoute.LimitOf | src/routes/messages.js:10 | Definition: an absent limit is 50, and a given one is `parseInt(limit, 10)`. `DefaultLimitIs50` and `ZeroLimitReturnsAll` state the consequences. |
| MessagesRoute.Matching | src/routes/messages.js:13-14 | Keeps exactly the records of the conversation, and with `before` only those with `ts < before`. |
| MessagesRoute.Count | src/routes/messages.js:18 | Mongo's `limit`: 0 means no limit. A non-zero limit returns exactly the smaller of its absolute value and the number available. |
| MessagesRoute.Newest | src/routes/messages.js:16-26 | Exactly `Count(limit, matches)` of the matches, in ascending time. A zero limit keeps all. |
| MessagesRoute.NewestKept | src/routes/messages.js:16-18 | No excluded match is newer than an included one. |
| MessagesRoute.History | src/routes/messages.js:8-31 | A missing conversation id is 400. A store error or unparsable limit is 500. A success is `Newest` of the matches: only wanted records, in chronological order. There are exactly `Count(limit, matches)` of them, drawn from the matches, and no left-out match is newer than a returned one. |
| MessagesRoute.DefaultLimitIs50 | src/routes/messages.js:10 | Without a limit, at most 50 records come back. |
| MessagesRoute.ZeroLimitReturnsAll | src/routes/messages.js:10-18 | `limit=0` returns every matching record. |
| Conversations.DevRequireAuth | src/routes/conversations.js:13-22 | `req.user` passes. Else the `x-dev-user` header becomes the id. Else the reply is 401. |
| Conversations.MatchedIds | src/routes/conversations.js:29-30 | Exactly the ids of users whose e-mail is listed. |
| Conversations.MatchedIdsAtMostOnce | src/routes/conversations.js:29-30 | With distinct user ids, each id appears at most once. |
| Conversations.CreatorExactlyOnce | src/routes/conversations.js:31-33 | The creator appears exactly once among the participants, beside the matched ids. |
| Conversations.WithCreator | src/routes/conversations.js:31-33 | The matched ids stay first and in order. The creator is present, and nothing else is added. |
| Conversations.ConversationStore.constructor | src/models/Conversation.js:5-10 | The collection starts empty. |
| Conversations.ConversationStore.Create | src/routes/conversations.js:25-46 | A store failure is 500 "create_failed", with no write. Otherwise it stores and returns the conversation: matched ids plus the creator if absent, `createdBy` the caller, and missing e-mails taken as `[]`. |
| Conversations.PostConversation | src/routes/conversations.js:25-46 | Unauthenticated callers get the auth error and nothing is written. After auth, a store failure is 500 "create_failed" with no write. A created conversation has the caller as creator and participant, and the store gains exactly that conversation. |
| Conversations.Including | src/routes/conversations.js:51 | Exactly the conversations containing the caller. |
| Conversations.List | src/routes/conversations.js:49-57 | The caller's conversations, newest first. A store failure is 500 "list_failed". |
| Conversations.FindById | src/routes/conversations.js:62 | The first conversation with that id, or none exists. |
| Conversations.Get | src/routes/conversations.js:60-72 | 404 when absent, 403 for a non-participant, 500 "fetch_failed" on a store failure, else the conversation. |
| ServerConversations.Create | server/src/routes/conversations.js:9-27 | After the middleware, a missing title fails the schema's `required` check and is 500 "create_failed". Participants are the matched ids plus the creator if absent, and `createdBy` is the caller. Failures are 500 "create_failed", with no write. |
| ServerConversations.List | server/src/routes/conversations.js:30-38 | After the middleware, the caller's conversations newest first. A store failure is 500 "list_failed". |
| CryptoKeyManager.ArrayBufferToBase64 | client/src/utils/cryptoKeyManager.js:10-18 | The chunked loop's output is the RFC 4648 section 4 Base64 of the bytes. |
| CryptoKeyManager.BufferOf | client/src/utils/cryptoKeyManager.js:20-29 | A falsy input gives an empty buffer. Otherwise the input is decoded with `atob`. |
| CryptoKeyManager.Base64ToArrayBuffer | client/src/utils/cryptoKeyManager.js:20-29 | The byte-filling loop yields the decoded bytes. A decode error throws. |
| CryptoKeyManager.BufferRoundTrip | client/src/utils/cryptoKeyManager.js:10-29 | Decoding the encoding of any bytes gives them back. |
| CryptoKeyManager.GenerateNewKey | client/src/utils/cryptoKeyManager.js:47-50 | The generated key is the Base64 text of the 32 bytes, non-empty, already trimmed, and passes `validateKey`. |
| CryptoKeyManager.ValidateKey | client/src/utils/cryptoKeyManager.js:35-45 | Definition: a truthy text whose trimmed form has at least 40 characters and decodes to 32 bytes. `ValidKeyShape` and `ValidKeyBuffer` state its consequences. |
| CryptoKeyManager.GeneratedKeyValidates | client/src/utils/cryptoKeyManager.js:35-50 | The Base64 of 32 random bytes passes `validateKey` and is already trimmed. |
| CryptoKeyManager.ValidKeyBuffer | client/src/utils/cryptoKeyManager.js:35-45 | A valid trimmed key decodes to 32 bytes. |
| CryptoKeyManager.TrimmedKeyValidates | client/src/utils/cryptoKeyManager.js:35-45 | Trimming a valid key keeps it valid. |
| CryptoKeyManager.ValidKeyShape | client/src/utils/cryptoKeyManager.js:35-45 | A valid key has 43 or 44 Base64 characters once whitespace is removed. |
| CryptoKeyManager.ChatKeyStore.constructor | client/src/utils/cryptoKeyManager.js:4 | The store holds the given key. |
| CryptoKeyManager.ChatKeyStore.SetChatKey | client/src/utils/cryptoKeyManager.js:56-66 | A falsy key is ignored; otherwise the trimmed key is stored. |
| CryptoKeyManager.ChatKeyStore.GetChatKeyBase64 | client/src/utils/cryptoKeyManager.js:68-83 | A stored valid key is returned trimmed. Otherwise a fresh 32-byte key is stored and returned. The result always validates. |
| CryptoKeyManager.ChatKeyStore.GetChatKey | client/src/utils/cryptoKeyManager.js:89-104 | The raw key is a new 32-byte buffer. It is the decoded stored key when that key is readable and valid. Otherwise it is the fresh bytes, whose Base64 text is stored when storage works. |
| CliClient.StartupKey | src/client.js:15-34 | A provided `CHAT_KEY` is used iff it decodes to 32 bytes. Otherwise startup fails. Without one, the random bytes are the key. |
| CliClient.StartupKeyLength | src/client.js:15-34 | The session key is always 32 bytes. |
| CliClient.Command | src/client.js:125-157 | `/join` emits a join for the second word, and other text is sent to `lastRoom`. Without a room, nothing is sent. |
| CliClient.Dispatch | src/client.js:122-159 | A blank line is ignored. Otherwise the command runs on the trimmed line. |
| CliClient.JoinTakesSecondWord | src/client.js:126-128 | `/join X` emits a join for X. |
| CliClient.BareJoinIsSent | src/client.js:126 | `/join` with no room is sent as chat text. |
| CliClient.ChatTextNeedsRoom | src/client.js:149-157 | Text goes encrypted to `lastRoom` when set; otherwise nothing is sent. |
| CliClient.CommandOfChatText | src/client.js:125-157 | A trimmed line not starting with "/" matches no command. It is sent to `lastRoom`, or reported as having no room. |
| CliClient.Client.constructor | src/client.js:105 | No room and no emissions. |
| CliClient.Client.OnLine | src/client.js:122-159 | A line emits what `Dispatch` decides and does not change `lastRoom`. |
| CliClient.Client.OnJoinAck | src/client.js:128-132 | `lastRoom` becomes the room only on an ok ack. |
| CliClient.Client.OnLeaveAck | src/client.js:134-140 | `lastRoom` is cleared only on an ok ack for the current room. |
| CliClient.Display | src/client.js:73-90 | Ciphertext, iv and tag are decrypted, or show `<unable to decrypt>`. Plain `text` is shown as-is. Anything else is "unknown format". |
| CliClient.RelayedEvents | src/client.js:73-90 | What the terminal shows for a relayed server event. |
| Migrate.Bytes | scripts/migrate_messages_to_base64.js:13-15 | Each number becomes a byte, taken modulo 256. |
| Migrate.ToBase64String | scripts/migrate_messages_to_base64.js:10-17 | null/undefined give "", and strings are unchanged. Buffers, `{data}` objects and arrays give the Base64 of their bytes. Anything else gives `String(val)`. |
| Migrate.ToBase64StringIdempotent | scripts/migrate_messages_to_base64.js:10-17 | Coercing a coerced value changes nothing. |
| Migrate.NeedsUpdate | scripts/migrate_messages_to_base64.js:40-43 | Definition: some field is neither null nor a string. |
| Migrate.Migrated | scripts/migrate_messages_to_base64.js:45-61 | Definition of one record after the pass. `MigratedFields` states what it keeps and rewrites. |
| Migrate.FieldUpdate | scripts/migrate_messages_to_base64.js:50-59 | A field is updated iff it is non-null and not a string. |
| Migrate.UpdatesOf | scripts/migrate_messages_to_base64.js:40-59 | A record needs an update iff its update set is non-empty. |
| Migrate.MigratedFields | scripts/migrate_messages_to_base64.js:50-61 | After the update, every field is a string or null, and string fields are untouched. |
| Migrate.MigrateAll | scripts/migrate_messages_to_base64.js:36-63 | Each record is migrated on its own. |
| Migrate.CountNeeding | scripts/migrate_messages_to_base64.js:40-48 | The number of records needing an update is at most the number scanned. |
| Migrate.NoneNeeding | scripts/migrate_messages_to_base64.js:40-48 | With no record needing an update, the count is 0. |
| Migrate.SecondPassSkipsAll | scripts/migrate_messages_to_base64.js:10-48 | A second pass finds nothing to update and changes nothing. |
| Migrate.MigrateStep | scripts/migrate_messages_to_base64.js:39-63 | Handling one more record extends the migrated prefix by that record. A skipped record is left as it is, an updated one receives its update set, and the count grows only for an updated record. |
| Migrate.Collection.constructor | scripts/migrate_messages_to_base64.js:33 | The collection holds the given records. |
| Migrate.Collection.Migrate | scripts/migrate_messages_to_base64.js:36-63 | The loop migrates every record. `updated` counts the records that needed it, and `updated + skipped` is the number scanned. |
| S3.Sanitize | src/utils/s3.js:40 | Every character outside `[a-zA-Z0-9.-]` becomes `_`, every allowed one is kept, and the length is preserved. |
| S3.SanitizeIdempotent | src/utils/s3.js:40 | Sanitising twice equals sanitising once. |
| S3.FileId | src/utils/s3.js:39 | 32 lowercase hex characters. |
| S3.NoSlashInName | src/utils/s3.js:39-41 | The `<fileId>-<name>` segment has no `/`. |
| S3.ObjectKeySegments | src/utils/s3.js:41 | The key splits on `/` into exactly `conversations`, the conversation id and `<fileId>-<sanitised name>`. |
| S3.GetSignedUploadUrl | src/utils/s3.js:38-64 | S3 is used iff all three settings are present. The S3 branch returns the signed URL and the bucket's public URL for the key. The local branch returns `/api/attachments/<fileId>` and the upload path. |
| Attachments.SignedUrl | src/routes/attachments.js:16-44 | After auth: missing fields are 400 first. A size above 10 MiB is 400, and an absent size counts as 0. A type outside the allowed prefixes is 400. Otherwise the reply is the upload ticket. |
| Attachments.AbsentSizeIsZero | src/routes/attachments.js:26 | An absent size is read as 0. |
| Attachments.UnparsableSizePasses | src/routes/attachments.js:26-29 | A size that parses to NaN passes the size check. |
| Attachments.AllowedTypePrefixes | src/routes/attachments.js:32-36 | A type is accepted iff it starts with one of the five prefixes. |
| Attachments.FindFile | src/routes/attachments.js:81-85 | The first listed file named `<fileId>-…`: no earlier file matches. None iff no file matches. |
| Attachments.PrecedesTotal | src/routes/attachments.js:81 | The listing order on names is total and strict: two different names are ordered exactly one way. |
| Attachments.PrecedesTransitive | src/routes/attachments.js:81 | The listing order on names is transitive. |
| Attachments.Insert | src/routes/attachments.js:48-81 | Writing a file keeps the listing in name order without repeats. It holds exactly the old names plus the new one, and writing an existing name changes nothing. |
| Attachments.InsertBefore | src/routes/attachments.js:81 | A name that precedes the first of a listing precedes all of it and is not in it. |
| Attachments.FirstMatchIsLeast | src/routes/attachments.js:81-82 | On a name-ordered listing, the served file is the least matching name. |
| Attachments.StoredName | src/routes/attachments.js:62 | The stored name starts with `<fileId>-`. |
| Attachments.UploadDir.constructor | src/routes/attachments.js:81 | The directory holds the given files, listed in name order. |
| Attachments.UploadDir.Upload | src/routes/attachments.js:12-70 | An auth failure changes nothing. After auth, multer writes a sent file under its own temporary name. The handler refuses when S3 is configured (400) or no file was sent (400), and a failed move is 500. A refused or failed upload leaves the temporary file in the directory. A success moves the file to `<fileId>-<filename>`, replacing a file of that name. Every new name takes its place in name order. |
| Attachments.UploadDir.Serve | src/routes/attachments.js:74-94 | 404 with S3 configured or with no match, and 500 when the directory cannot be read. Otherwise exactly `FindFile`'s first match. |
| Attachments.UploadedFileIsServed | src/routes/attachments.js:48-89 | A file uploaded under a new id is the one served for it. |
| Attachments.FindInsertedOther | src/routes/attachments.js:62-82 | Writing a file whose name does not match an id leaves that id's lookup unchanged. |
| Attachments.LeastNameIsServed | src/routes/attachments.js:62-82 | After `z.txt` and then `a.txt` are uploaded under id `f`, `f-a.txt` is served: the least name wins, not the first upload. |
| Attachments.DashedIdsCollide | src/routes/attachments.js:62-82 | A file stored under id `a-b` is served for id `a`. |
| AuthMiddleware.TokenOf | src/middleware/auth.js:7 | The token is the second space-separated word. |
| AuthMiddleware.RequireAuth | src/middleware/auth.js:4-15 | A missing header is 401 "missing auth header". A failed verification is 401 "invalid token". Otherwise `req.user` is the whole payload. |
| AuthMiddleware.TokenOfSchemeAndToken | src/middleware/auth.js:7 | `scheme token` yields the token. |
| AuthMiddleware.AnySchemeAccepted | src/middleware/auth.js:7-11 | The scheme word is never checked. |
| ServerAuthMiddleware.RequireAuth | server/src/middleware/auth.js:4-31 | A missing header is 401, and so is a header that is not exactly two words. The second word is verified; on success `req.user` is `{id, email}`. |
| ServerAuthMiddleware.ThreeWordsRefused | server/src/middleware/auth.js:10-14 | A three-word header is refused. |
| ServerAuthMiddleware.AnySchemeAccepted | server/src/middleware/auth.js:16-21 | The scheme word is never checked. |
| AuthRoutes.FindByEmail | src/routes/auth.js:92 | The first user with that e-mail, or none exists. |
| AuthRoutes.FindByToken | src/routes/auth.js:63-66 | The first user holding the token with expiry after now, or none does. |
| AuthRoutes.NewUser | src/routes/auth.js:25-36 | A new user is unverified, has a 64-lowercase-hex-character token, and expires 24 hours later. |
| AuthRoutes.MarkVerified | src/routes/auth.js:71-74 | The user becomes verified with no token and no expiry; the other fields are kept. |
| AuthRoutes.AccessClaims | src/routes/auth.js:107 | The claims name the user's id and e-mail and expire 2 hours after issue. |
| AuthRoutes.Login | src/routes/auth.js:87-117 | Missing fields are 400. An unknown e-mail and a wrong password are both 401 "invalid credentials". A correct password on an unverified user is 401 "email_not_verified". Success is exactly the verified, correct-password case. The token is signed over `{id, email}` with a 2-hour expiry. |
| AuthRoutes.WrongPasswordLooksUnknown | src/routes/auth.js:92-96 | A wrong password gets the same reply as an unknown e-mail. |
| AuthRoutes.UnverifiedCannotLogIn | src/routes/auth.js:95-104 | The password is checked before the verification flag. |
| AuthRoutes.UserStore.constructor | src/models/User.js:5-12 | The collection starts empty. |
| AuthRoutes.UserStore.Register | src/routes/auth.js:13-54 | Missing fields are 400. A used e-mail is 409 with no new user. A create failure is 500. Success appends the new user whatever the e-mail's fate. |
| AuthRoutes.UserStore.VerifyEmail | src/routes/auth.js:58-83 | A missing token is 400. An unknown or expired token is 400 with every user unchanged. Otherwise that user alone is marked verified. |
| AuthRoutes.TokenWorksOnce | src/routes/auth.js:71-75 | After verification the token no longer matches. |
| AuthRoutes.RegisterVerifyLogin | src/routes/auth.js:13-117 | Register, then verify within 24 hours, then log in with the right password: this succeeds for the new user. |
| UserHelper.FindByClerkId | src/utils/userHelper.js:26 | The first user with that clerk id, or none exists. |
| UserHelper.Upserted | src/utils/userHelper.js:25-35 | At most one record is added, and every record afterwards is an old one or the new `{clerkId, email}`. |
| UserHelper.UpsertedShape | src/utils/userHelper.js:25-39 | A missing user is created exactly once. An existing user gets only its e-mail updated, and every other record is untouched. |
| UserHelper.UpsertedIdempotent | src/utils/userHelper.js:25-39 | Repeated calls create at most one user. |
| UserHelper.ClerkUsers.constructor | src/utils/userHelper.js:25 | The collection holds the given users. |
| UserHelper.ClerkUsers.GetOrCreateUser | src/utils/userHelper.js:14-46 | Missing arguments throw, and so does a disconnected store, before any lookup. A Mongo connection error is rethrown as the connection message, and other errors as they are. On success the store is upserted and `{clerkId, email}` returned. On failure the store is unchanged. |
| Ui.Decimal | client/src/utils/ui.js:18-21 | Decimal digits only. |
| Ui.DecimalValue | client/src/utils/ui.js:18-21 | The digits denote the number. |
| Ui.FormatTime | client/src/utils/ui.js:8-24 | A falsy stamp (missing, 0 or empty text) gives "", and a truthy stamp that does not parse gives "Invalid Date". Otherwise under a minute is "Just now", then "Nm ago", "Nh ago", "Yesterday", "Nd ago". From 7 days, the calendar date. |
| Ui.FutureIsJustNow | client/src/utils/ui.js:12-17 | A parsed time in the future shows "Just now". |
| Ui.IsDifferentDay | client/src/utils/ui.js:38-43 | False when either stamp is falsy. Two parsed stamps differ iff their days differ. A parsed stamp and an unparsable one always differ, and two unparsable ones never do. |
| Ui.SameDayNoSeparator | client/src/utils/ui.js:38-43 | The test is symmetric. For two truthy stamps it is true iff their day strings differ. |
| Ui.EpochStamps | client/src/utils/ui.js:8-10 | The epoch as the number 0 is falsy and shows "". As the ISO text the server sends, it is a real time. |
| Ui.FormatDateSeparator | client/src/utils/ui.js:48-61 | A falsy stamp gives "", and an unparsable one "Invalid Date". Otherwise "Today", "Yesterday" or the calendar date. |
| Ui.GetInitials | client/src/utils/ui.js:66-73 | As written: "?" for falsy input, and the first two characters, uppercased, when there are fewer than two parts. When the first two parts are both non-empty, their first characters, uppercased. It throws iff there are at least two parts and the first two are both empty. |
| Ui.DoubledSpaceInitials | client/src/utils/ui.js:68-70 | As written, "a  b" gives "AUNDEFINED". |
| Ui.LoneAtThrows | client/src/utils/ui.js:68-70 | As written, "@" throws a TypeError. |
| Ui.Initials | client/src/utils/ui.js:66-73 | Corrected: at most two characters. The uppercased first letters of the first two non-empty words, or the first two characters uppercased. |
| Ui.InitialsAgree | client/src/utils/ui.js:66-73 | When there are fewer than two parts, or the first two are both non-empty, the corrected version and the code agree. |
| Ui.InitialsOfDoubledSpace | client/src/utils/ui.js:68-70 | Corrected, "a  b" gives "AB". |
| Ui.InitialsOfLoneAt | client/src/utils/ui.js:68-72 | Corrected, "@" gives "@". |
| ConversationsPage.TrimAll | client/src/pages/Conversations.jsx:89 | Trims every item, in order. |
| JsText.DropEmpty | client/src/pages/Conversations.jsx:89 | No empty string is kept, and every non-empty string is kept as often as it occurs. The result is no longer than the input. |
| JsText.DropEmptyAppend | client/src/pages/Conversations.jsx:89 | The filter distributes over concatenation, so it keeps order. |
| JsText.DropEmptyOfFull | client/src/pages/Conversations.jsx:89 | A list without empty strings is kept whole. |
| ConversationsPage.ParticipantEmails | client/src/pages/Conversations.jsx:89 | Yields exactly the non-empty trimmed comma-separated parts, each as often as given. They have no edge whitespace and no commas. |
| ConversationsPage.ParticipantEmailsOfJoin | client/src/pages/Conversations.jsx:89 | Parsing the comma-join of clean addresses gives them back in order. |
| ConversationsPage.NoParticipants | client/src/pages/Conversations.jsx:89 | An empty field gives no participants. |
| ConversationsPage.Filtered | client/src/pages/Conversations.jsx:113-118 | An empty query keeps all. Otherwise it keeps exactly the conversations whose lowercased title or id contains the lowercased query. |
| ConversationsPage.FilteredCounts | client/src/pages/Conversations.jsx:113-118 | Every matching conversation (every conversation, for an empty query) keeps its multiplicity, and every other one is gone. |
| ConversationsPage.FilteredAppend | client/src/pages/Conversations.jsx:113-118 | Filtering distributes over concatenation, so the kept conversations stay in list order. |
| ConversationsPage.FilteredIdempotent | client/src/pages/Conversations.jsx:113-118 | Filtering twice equals filtering once. |
| ConversationsPage.LastSix | client/src/pages/Conversations.jsx:162 | The id's last six characters, or all of a shorter id. |
| ConversationsPage.DisplayTitle | client/src/pages/Conversations.jsx:162 | The title, or "Conversation " and the id's last six characters. |
| ConversationsPage.Page.constructor | client/src/pages/Conversations.jsx:18-22 | The list is empty, loading, with no error. |
| ConversationsPage.Page.Load | client/src/pages/Conversations.jsx:31-80 | No token: the list is empty with an error. A network failure, a non-ok reply or a non-array body: the list is empty with that error. An ok array: the list is that array with no error. Nothing changes after unmount. |
| ClientAuth.Rethrown | client/src/utils/auth.js:25-37 | A message mentioning a template becomes the template error. Any other error is prefixed with "Failed to get authentication token: ". |
| ClientAuth.GetAuthToken | client/src/utils/auth.js:12-38 | No `getToken` throws. A non-empty token is returned unchanged, and other failures are rethrown. |
| ClientAuth.MentionsTemplateIsOneTest | client/src/utils/auth.js:27-31 | The three substring tests are one test for "template". |
| ClientAuth.EmptyTokenIsTemplateError | client/src/utils/auth.js:20-33 | An empty token ends in the template-missing error. |
| ClientAuth.GetUserEmail | client/src/utils/auth.js:47-59 | A null user throws. Otherwise the result is the primary e-mail, else the first listed one; with neither, it throws. |
| Base64.Encode | client/src/utils/cryptoKeyManager.js:10-18 | Padded to a multiple of 4 characters, 4 per 3 bytes rounded up, using only the alphabet and `=`. |
| Base64.Btoa | client/src/utils/cryptoKeyManager.js:17 | Fails iff a code point is above 255. |
| Base64.Decode | client/src/utils/cryptoKeyManager.js:22 | A character outside the alphabet, `=` and ASCII whitespace makes decoding fail. |
| Base64.Atob | client/src/utils/cryptoKeyManager.js:22 | A decoded result is a binary string. |
| Base64.AtobBtoa | client/src/pages/Chat.jsx:20-35 | `atob(btoa(s))` gives back any binary string. |
| Base64.DecodeEncode | client/src/utils/cryptoKeyManager.js:10-29 | Decoding the RFC 4648 section 4 encoding gives back the bytes. |

## Left out

- Transport and storage: socket.io, `fetch`, IndexedDB, localStorage, `fs`, the S3 SDK and presigner, and the mailer. Each becomes a parameter or a sequence field, and most of their failures become boolean or `Option` outcomes. The exceptions are listed below.
- Concurrency. Handlers run one at a time. Overlapping flushes on reconnect, and the interleaving of the asynchronous decrypt with later `setMessages` calls, are not modelled; the live handler's two dedup checks collapse into one.
- AES-GCM and Web Crypto are left out. Decryption is a function returning an optional plaintext, and `importKeyFromBase64` keeps only its checks.
- bcrypt, `crypto.randomBytes`, `Date.now` and `jsonwebtoken` are parameters: a password check, random bytes, a clock in milliseconds, and verify or sign functions.
- Node's `Buffer.from(s, 'base64')` in src/client.js is a parameter. The browser's `atob` and `btoa` are modelled exactly.
- Timers: the typing auto-clear, the read-receipt debounce, and scrolling.
- Locale and time zone: `toDateString`, `toLocaleDateString` and the day arithmetic are parameters (`dayOf`, `day`, `calendarDate`). The theme functions and `formatMessageTime` are not modelled.
- A message's `ts` is a `Wire.Stamp`: absent, a number, the server's ISO text, or other text with the time it parses to. JavaScript's date-string parser itself is not modelled; other values (NaN, objects) are not modelled either.
- `toLowerCase` and `toUpperCase` are modelled for ASCII letters only.
- JSON parsing of responses is taken as done. A body is none, text, an array of conversations, or other JSON.
- Query parameters are single strings, and a `before` date arrives already converted to milliseconds.
- AuthRoutes.UserStore.Register, AuthRoutes.UserStore.VerifyEmail, AuthRoutes.Login, AuthRoutes.TokenWorksOnce, AuthRoutes.RegisterVerifyLogin, UserHelper.Upserted, UserHelper.UpsertedShape, UserHelper.UpsertedIdempotent, UserHelper.ClerkUsers.GetOrCreateUser: these model the routes as written against a store that keeps every field they write. The deployed schema does not. src/models/User.js:5-12 declares only `email`, `passwordHash` (required) and `displayName`, and Mongoose's strict mode drops `emailVerified`, the verification token, its expiry and `clerkId` on save. So login (src/routes/auth.js:99) always answers "email_not_verified". The token lookup (src/routes/auth.js:63-66) matches nobody, or an arbitrary user when strict querying strips the unknown filter fields. `getOrCreateUser`'s create (src/utils/userHelper.js:29) fails validation for lack of a password hash. The model reaches these failures only through the store-error parameters.
- AuthRoutes.NewUser: the expiry is `now + 24 h` in milliseconds. The source adds 24 to the local hour, which differs across a daylight-saving change.
- Server.ChatServer.SendMessage: the broadcast is one log entry naming its recipients; the order of delivery to sockets is not modelled. The server has no `message_delivered`, `message_read` or `leave_conversation` handlers, so the terminal client's leave ack may never arrive (`OnLeaveAck` takes an optional ack).
- OfflineQueue.Queue.Flush: a rejecting `incrementRetry` inside the loop's catch (client/src/utils/offlineQueue.js:120-122) rejects the whole flush, leaving later entries unprocessed and no counts returned. The model's `incrementRetry` always completes; `removeUnsentMessage` failures are modelled.
- OfflineQueue.Queue.FlushOne: the same rejecting `incrementRetry` is not modelled for one entry, and neither is one in the `else` branch (client/src/utils/offlineQueue.js:117), which lands in the catch and retries the increment.
- Message status is a plain overwrite. A monotonic sent → delivered → read rule appears nowhere in the code, so none is modelled.
- Presence updates, attachments on the chat page, and the React rendering are not modelled; they carry no state logic beyond what is listed above.
- `path.join` normalisation of upload paths is not modelled. Names are compared as plain strings.
- Migrate.Collection.Migrate: models the run in which every step succeeds. The script exits early on a missing `MONGO_URI` (scripts/migrate_messages_to_base64.js:20-23), and a failing `find` or `updateOne` ends it with the records handled so far updated (scripts/migrate_messages_to_base64.js:66-70); neither exit is modelled.
- Chat.ChatSession.SendMessage: the ack is taken to arrive. When the server never calls back, the source's promise stays pending, so the payload is neither confirmed nor queued; the model has no such state.
- S3.Sanitize, ConversationsPage.LastSix, Ui.GetInitials, Ui.Initials: strings are sequences of code points, while JavaScript's regular expressions without the `u` flag, `slice` and indexing work on UTF-16 code units. A character outside the Basic Multilingual Plane becomes `__` in the source but `_` in `S3.Sanitize`, and the source's `slice(-6)` and `[0]` can split a surrogate pair.
- The terminal client reads `from` while the server sends `fromEmail`. `CliClient.RelayedEvents` states what is then shown. A browser payload without a tag shows as "unknown format" there.
- UI-only files (the older src/pages/Chat.jsx, components, login, register and verification pages, and context) are not part of this model.

## Findings

| source | as written | input that shows it | evidently intended | confidence | as-written member | corrected member |
|---|---|---|---|---|---|---|
| client/src/utils/ui.js:66-73 | `getInitials` splits on single whitespace or `@` characters and reads `parts[0][0] + parts[1][0]`, so an empty part contributes `undefined` | `"a  b"` gives `"AUNDEFINED"`; `"@"` throws a TypeError, because `undefined + undefined` is NaN | The first letters of the first two words, ignoring empty parts: `"AB"`, and `"@"` for `"@"` | not executed | Ui.GetInitials (Ui.DoubledSpaceInitials, Ui.LoneAtThrows) | Ui.Initials (Ui.InitialsOfDoubledSpace, Ui.InitialsOfLoneAt, Ui.InitialsAgree) |
