# Verified model of the bot server's hard core

The repository is a Bot API server in Go on top of an MTProto client. This project models, in
Dafny, the parts of it whose correctness depends on interleaving or on exact arithmetic, and
proves what their code promises. `dafny verify dfyconfig.toml` checks everything.

**The update pipeline.** Every bot has a bounded queue of updates that assigns permanent ids. It
is drained, under one drain lock, by getUpdates calls and by webhook deliverers, while pushes and
clears go on beside them.

- `BufferSpec.dfy` and `UpdateBuffer.dfy`: the queue as functions on sequences, and the class that
  shifts and truncates an array in place, proved against them.
- `Pipeline.dfy`: a step system. One step is one critical section, one translation or one POST;
  any number of deliverers may be started and stopped at any time. What the translator and the
  endpoint say is left open.
- `PipelineConservation.dfy`, `PipelineDelivery.dfy`, `PipelinePolling.dfy`, `PipelineDrain.dfy`,
  `PipelineCost.dfy`: theorems about all runs of it.
- `Drainers.dfy`: the getUpdates handler and the deliverer's goroutine as imperative code over the
  queue class. What others do between their steps, what ends their waits and what the translator
  and the endpoint answer are parameters; these determine a list of steps of the step system, and
  the code is shown to take exactly that run, so that the theorems are about it.

**Two concurrent protocols of the bot manager.** The generation-guarded caches
(`CommandKeys.dfy`, `BotCaches.dfy`, `CacheProtocol.dfy`) and the creation of bots on demand
(`ManagerProtocol.dfy`, `Manager.dfy`).

**Codecs.** Decimal text and inline message ids (`Integers.dfy`, `IntText.dfy`,
`InlineMessageId.dfy`); zero-run compression, file ids and signed file paths (`Rle.dfy`,
`LittleEndian.dfy`, `FileIds.dfy`, `FilePaths.dfy`).

**Reply markup.** `ReplyMarkup.dfy`: keyboards parsed from Bot API objects and rendered back.

## Where the code does not do what is written about it

- The comment in getUpdates (internal/server/methods_updates.go:66-73) says that a call without an
  offset consumes nothing but untranslatable updates. When the tail of the snapshot does not
  translate, the ack removes the whole snapshot, including updates returned in the same answer.
  `TailDecides` says that this happens exactly when the snapshot's last update does not translate.
- itoaS64 prints the least int64 as a bare minus sign; `ItoaReadsBackIff` says that it is the only
  value that cannot be read back.
- A file id keeps a file's identity only if the type fits 24 bits and the file reference fits its
  length byte, or is absent without a photo size that is taken for one (`IdentityBackExactly`).
  The unique id computed after decoding differs from the original's as soon as there is a photo
  size (`UniqueAfterDecode`).
- A markup with a login_url button, or without any usable button, does not come back from its own
  rendering (`NormalFormExactly`); nor does one with a text or callback data that is not valid UTF-8,
  which JSON replaces (`BackExactly`).
- A cache entry may be stale for good after a write that was applied while its RPC failed
  (`LostWriteStaysStale`), and gets may go back in time while a set is under way (`GetsMayGoBack`).
  They cannot when nothing is outstanding (`NoGoingBack`), and every outstanding write that changes an
  answer can make them (`OutstandingMayGoBack`).

## Model

| member | source | states |
|---|---|---|
| UpdateBuffers.UpdateBuffer.constructor | internal/botmgr/updates.go:69-73 | a new buffer is empty, has pushed nothing and holds ten thousand updates |
| UpdateBuffers.UpdateBuffer.Push | internal/botmgr/updates.go:79-91 | the update gets the next id and is appended; the low end of the live interval rises by one exactly when the buffer was full |
| UpdateBuffers.UpdateBuffer.Peek | internal/botmgr/updates.go:102-121 | a positive offset acts as an ack, then the first `limit` items are returned in an array of their own |
| UpdateBuffers.UpdateBuffer.Wait | internal/botmgr/updates.go:126-162 | whatever others push or clear meanwhile, the result is a fresh copy of the first `limit` items not below the offset at the moment of return, non-empty exactly when one is ready; exactly the wake-ups up to that moment have happened, none if an item is ready at once or the timeout is not positive |
| UpdateBuffers.WaitEnds | internal/botmgr/updates.go:149-158 | a parked wait goes through the wake-ups before the first moment at which an item is ready or the next wake-up is a timeout or a cancellation, and through no other |
| UpdateBuffers.WaitIs | internal/botmgr/updates.go:131-162 | what others do during a wait is what they do in these wake-ups, and nothing without a positive timeout |
| UpdateBuffers.UpdateBuffer.HasReadyNow | internal/botmgr/updates.go:164-171 | true exactly when some item's id is at least the offset |
| UpdateBuffers.UpdateBuffer.SnapshotNow | internal/botmgr/updates.go:173-188 | a fresh array with the first `limit` items (all of them if the limit is not positive) from the offset on |
| UpdateBuffers.UpdateBuffer.Ack | internal/botmgr/updates.go:191-202 | the in-place shift leaves exactly the items from `upTo` on; the low end becomes min(max(lo, upTo), nextID) |
| UpdateBuffers.UpdateBuffer.Clear | internal/botmgr/updates.go:205-209 | the buffer is empty and the next id stays |
| UpdateBuffers.UpdateBuffer.Len | internal/botmgr/updates.go:211-215 | the number of queued items |
| BufferSpec.AckMovesLow | internal/botmgr/updates.go:191-202 | on a queue that is the push history from lo on, an ack leaves the push history from min(max(lo, upTo), nextID) on |
| BufferSpec.AckKeeps | internal/botmgr/updates.go:191-202 | an ack keeps exactly the items whose ids are at least `upTo` |
| BufferSpec.PushMovesLow | internal/botmgr/updates.go:79-91 | a push keeps the queue a tail of the history within capacity, and evicts exactly the oldest id of a full queue |
| BufferSpec.SnapshotIs | internal/botmgr/updates.go:164-188 | a snapshot is a run of consecutive ids from max(lo, offset), as long as the limit allows, empty exactly when nothing is ready |
| BufferSpec.SnapshotFirst | internal/botmgr/updates.go:173-188 | a snapshot is the first `limit` items from the first id on that is not below the offset |
| BufferSpec.RunRefines | internal/botmgr/updates.go:79-209 | after any sequence of Push, Ack, Peek and Clear the slice is the push history on an interval that ends at the next id, never longer than the capacity, with the low end as the abstract buffer says |
| Pipeline.ShapeStep | internal/botmgr/webhook.go:105-177 | every step of every actor keeps the buffer a tail of the history, one holder of the drain lock, and each snapshot a run of the history not ahead of the buffer; the low end never falls |
| PipelineConservation.AccountedStep | internal/botmgr/webhook.go:105-177 | every step keeps the bookkeeping of why each missing id is missing, including what a drainer has gone through but not yet acked |
| PipelineConservation.Conservation | internal/botmgr/updates.go:79-209 | in every run each id ever assigned is still buffered with its update, or after its push was confirmed by an offset, returned, untranslatable, posted with 2xx, abandoned, evicted or cleared |
| PipelineConservation.OnlyWithReason | internal/server/methods_updates.go:42-87 | in every run each step removes only ids that its own kind of step has a reason to remove, even when pushes and clears fall between a snapshot and its ack |
| PipelineConservation.PrefixAck | internal/botmgr/webhook.go:123-164 | a round, on its normal and on its stop path, removes exactly the buffered ids of its resolved prefix and leaves the first unresolved update at the head unless it had been evicted |
| PipelineConservation.TailDecides | internal/server/methods_updates.go:54-87 | in every run, when a getUpdates call answers, the still buffered updates of its snapshot, returned ones included, stay buffered exactly when the last update of the snapshot translates |
| PipelineDelivery.WebhookOrder | internal/botmgr/webhook.go:116-164 | in every run, over all deliverers ever started and all interleaved getUpdates calls, later 2xx POSTs carry larger ids, so none is repeated |
| PipelineDelivery.HeadOfLine | internal/botmgr/webhook.go:109-163 | with the drain lock free, a buffered update with a non-zero counter is the head of the buffer, and its counter is between 1 and 7 and equals its failed POSTs |
| PipelineDelivery.AtMostEightAttempts | internal/botmgr/webhook.go:100-159 | no deliverer attempts an update more than 8 times; it abandons one at most once, after 8 failures and no success |
| PipelineDelivery.OnlyTheHeadIsAbandoned | internal/botmgr/webhook.go:144-159 | only the first update of a round's snapshot can be abandoned, so at most one per round |
| PipelineDelivery.BackoffClosedForm | internal/botmgr/webhook.go:105-175 | in every run the sleep after the k-th failed round since the last 2xx POST or the start lasts min(2^(k-1), 300) seconds |
| PipelinePolling.PollingEndToEnd | internal/server/methods_updates.go:45-87 | a lone client that sends last received id + 1 has received, in every run with pushes anywhere, exactly the translatable updates below its cursor, once and in order, and nothing translatable left the buffer unreceived |
| PipelinePolling.BacklogTakesCeil | examples/e2e_test/e2e_test.go:86-134 | without pushes a backlog of n is gone after exactly ceil(n/limit) non-empty snapshots, whatever translates |
| PipelinePolling.PollingEnds | examples/e2e_test/e2e_test.go:86-134 | without pushes the client has answered its last call for a backlog of n within 4n + 1 of its steps |
| PipelinePolling.PollingNeverStuck | internal/server/methods_updates.go:42-87 | in every such run one of the client's steps is possible |
| PipelineDrain.AloneFrom | internal/botmgr/webhook.go:105-118 | a deliverer at its loop head in any reachable state with the lock free meets the conditions of the drain theorems |
| PipelineDrain.DrainBounds | internal/botmgr/webhook.go:100-177 | with n pending, no pushes and no stop, any endpoint lets one deliverer make at most 8n POSTs, 7n sleeps and 7n + ceil(n/100) rounds |
| PipelineDrain.DrainEnds | internal/botmgr/webhook.go:105-177 | within 80n + 8 of its steps it has emptied the buffer |
| PipelineDrain.NeverStuck | internal/botmgr/webhook.go:105-177 | and one of its steps is always possible |
| PipelineCost.AbandonedCosts | internal/botmgr/webhook.go:105-175 | in every run, whatever others push, clear, poll or deliver meanwhile, a deliverer that first fails with an update k failed rounds after its last success and later abandons it has slept in between exactly the k-th to (k+6)-th back-off |
| PipelineCost.HopelessUpdateCosts127 | internal/botmgr/webhook.go:105-175 | with k = 0, as after a success or at the start, that is exactly 127 seconds |
| PipelineCost.AfterSuccess | internal/botmgr/webhook.go:138-143 | in every run, a success leaves no failed round counted, the back-off at one second and no failure held against any update the deliverer has yet to resolve |
| GetUpdatesHandler.GetUpdates | internal/server/methods_updates.go:22-88 | an offset counts if given and positive, the limit is the given one up to 100 and 100 without one, the timeout the given one up to 50 and 0 without one. A positive offset removes what is below it and nothing else before the wait; the wait lasts exactly until something is ready or it is ended; the answer holds exactly the translatable ids, ascending, of the first `limit` updates from the offset on that are buffered then. With the pushes and clears of others given before each step and during the wait, the handler takes exactly one run of the step system, and its last ack keeps the buffer exactly when the last update of the snapshot translates |
| GetUpdatesHandler.CallIsARun | internal/server/methods_updates.go:42-87 | such a call, made in a reachable state, ends in a reachable state, so every theorem about runs holds of it |
| GetUpdatesHandler.TranslateAll | internal/server/methods_updates.go:54-65 | the loop returns the translatable ids of the snapshot in order and takes exactly the run of the given others' steps and one translation per item |
| GetUpdatesHandler.TranslatedIs | internal/server/methods_updates.go:54-65 | an id is answered exactly when its update is in the snapshot and translates, in ascending order |
| GetUpdatesHandler.DropTail | internal/server/methods_updates.go:74-86 | the buffer afterwards is exactly what the tail ack leaves of it |
| GetUpdatesHandler.TailAckBy | internal/server/methods_updates.go:74-86 | the tail ack of an answer depends on the snapshot's last update alone: nothing is removed if it translates, everything up to it otherwise |
| WebhookDeliverer.JudgeOne | internal/botmgr/webhook.go:135-159 | after a 2xx or an untranslatable update the item is resolved and its counter gone, after a 2xx the back-off is one second; after a failure the counter is one up and the loop is left, except that the eighth failure abandons and resolves the item; attempts, back-off and lastAcked are those of the step system |
| WebhookDeliverer.DeliverOne | internal/botmgr/webhook.go:125-159 | exactly the given others' steps, then either the stop or the judgement with the given verdict, which logs what that verdict stands for |
| WebhookDeliverer.DeliverBatch | internal/botmgr/webhook.go:125-160 | the items are dealt with in order, each as its script says, up to the first scripted stop, the first failure that does not abandon, or the end; a stop is reported exactly when the scripts reach one |
| WebhookDeliverer.Turn | internal/botmgr/webhook.go:110-176 | a turn that is not stopped at its top takes the drain lock, waits up to 30 seconds through wake-ups until an update is there or one of them ends the wait, so that a push into an empty buffer is taken, and works off the first hundred updates in order; it returns exactly when a scripted stop is seen and takes exactly the run its script determines |
| WebhookDeliverer.PushIsTaken | internal/botmgr/webhook.go:117-117 | a push into the empty buffer at the first wake-up is what the wait comes back with |
| WebhookDeliverer.Run | internal/botmgr/webhook.go:105-177 | from its start the goroutine takes turn after turn as its scripts say, each with its wait, until it returns or they are used up, with the buffer left where that run leaves it |
| WebhookDeliverer.GoroutineIsARun | internal/botmgr/webhook.go:105-177 | the goroutine, started in a reachable state, leads to a reachable state, so every theorem about runs holds of it |
| CommandKeys.KeyDeterminesQuestion | internal/server/methods_bot_config.go:17-46 | a request the server accepts shares its cache key with exactly the requests that ask the same question in the same language, for all chat tokens and language texts |
| CommandKeys.CleanCutUnique | internal/server/methods_bot_config.go:38-43 | the first bar outside a JSON string literal splits a key uniquely into chat and language |
| CommandKeys.RejectedMayCollide | internal/server/methods_bot_config.go:45-45 | requests with unknown scope kinds may share a key; they are never stored |
| CommandKeys.AsksIs | internal/server/methods_bot_config.go:64-113 | the scope kinds that are accepted, and the question each of them asks |
| BotCaches.Bot.CommandCacheGet | internal/botmgr/botmgr.go:55-59 | the entry, if any, and the generation |
| BotCaches.Bot.CommandCachePut | internal/botmgr/botmgr.go:64-74 | stores if the generation is unchanged, and otherwise changes nothing |
| BotCaches.Bot.CommandCacheInvalidate | internal/botmgr/botmgr.go:78-83 | no entries and a new generation |
| BotCaches.Bot.BotInfoCacheGet | internal/botmgr/botmgr.go:86-90 | the entry, if any, and the generation |
| BotCaches.Bot.BotInfoCachePut | internal/botmgr/botmgr.go:93-103 | stores if the generation is unchanged, and otherwise changes nothing |
| BotCaches.Bot.BotInfoCacheInvalidate | internal/botmgr/botmgr.go:107-112 | no entries and a new generation |
| BotCaches.GenCountsDrops | internal/botmgr/botmgr.go:64-83 | the generation is the same after others' work exactly when none of it was an invalidation |
| BotCaches.GetMyCommands | internal/server/methods_bot_config.go:147-182 | answers a hit without touching the cache, a miss with the server's answer, which is kept exactly when nobody invalidated meanwhile; a rejected scope never finds an entry; only accepted questions are ever cached |
| BotCaches.SetMyCommands | internal/server/methods_bot_config.go:115-145 | a set that succeeds leaves no entry, whatever others stored meanwhile; one that fails leaves the cache to the others |
| BotCaches.GetBotInfoField | internal/server/methods_bot_config.go:242-268 | getMyName answers the name, getMyDescription the description and getMyShortDescription the short description of the cached record, or of the fetched one, which is kept exactly when nobody invalidated meanwhile |
| BotCaches.SetBotInfoField | internal/server/methods_bot_config.go:204-226 | a set that succeeds leaves no entry in any language |
| CacheProtocol.CoherentStep | internal/server/methods_bot_config.go:115-199 | every step of every reader and writer keeps the invariant: entries are at most as old as the last invalidation, a matching generation proves a fetch after it, and every later version is pending or lost |
| CacheProtocol.EntriesAreCoherent | internal/botmgr/botmgr.go:52-112 | in every interleaving each entry is an answer of the server since the latest invalidation, and the present answer when every applied write has been invalidated for |
| CacheProtocol.NeverOlderThanAReturnedSet | internal/server/methods_bot_config.go:140-182 | a get that begins after a set has returned never answers with anything older than that set |
| CacheProtocol.NoGoingBack | internal/server/methods_bot_config.go:140-182 | in every run, a get that begins with every applied write invalidated for, or that misses, answers something the server has held since the get began |
| CacheProtocol.OutstandingMayGoBack | internal/server/methods_bot_config.go:140-182 | from every quiet state and for every write that changes an answer, applied and not invalidated for or lost, some run has a get that begins then and is answered what the server no longer holds |
| CacheProtocol.StalePutIsDropped | internal/botmgr/botmgr.go:61-74 | a value fetched before the last invalidation is never put |
| CacheProtocol.GetAmongOthers | internal/server/methods_bot_config.go:147-182 | a get that misses leaves the cache, after any steps of others between its lookup and its put, as the handlers' contracts say |
| CacheProtocol.LostWriteStaysStale | internal/server/methods_bot_config.go:140-144 | a run after which an entry is stale and nothing is pending: a write was applied and its RPC failed |
| CacheProtocol.GetsMayGoBack | internal/server/methods_bot_config.go:155-180 | a run in which a get answers the new value and a later one the old, while the set has not returned |
| ManagerProtocol.InvStep | internal/botmgr/botmgr.go:149-188 | every section of every call keeps mutual exclusion per token, one mutex per token, and every successful build published or about to be |
| ManagerProtocol.OneBuildInFlight | internal/botmgr/botmgr.go:169-182 | at most one call is building a token, or has built it and not yet published |
| ManagerProtocol.OneBuildSucceeds | internal/botmgr/botmgr.go:178-187 | in every run at most one build of a token ever succeeds |
| ManagerProtocol.OneBotPerToken | internal/botmgr/botmgr.go:149-188 | a call that succeeds returns the bot of its token's one successful build, so two calls return the same bot exactly when they asked for the same token |
| ManagerProtocol.KeysStayDisjoint | internal/botmgr/botmgr.go:162-187 | no token is in `bots` and `init` at once |
| ManagerProtocol.SameMutexForever | internal/botmgr/botmgr.go:162-170 | all calls for a token that ever wait or build use one mutex, whatever fails between them |
| ManagerProtocol.FailureKeepsMutex | internal/botmgr/botmgr.go:178-182 | a failed build leaves the token's mutex in `init` for later calls |
| ManagerProtocol.NeverDeadlocked | internal/botmgr/botmgr.go:149-188 | while a call has not returned, some call can move |
| Managers.Manager.FastLookup | internal/botmgr/botmgr.go:150-155 | the section under the read lock is the step system's first look |
| Managers.Manager.LookupOrReserve | internal/botmgr/botmgr.go:157-167 | the section under the write lock returns a published bot, or queues the call on the token's one mutex, made if missing |
| Managers.Manager.LookAgain | internal/botmgr/botmgr.go:169-176 | the look under the mutex goes on to a build only if no bot is published |
| Managers.Manager.PublishBot | internal/botmgr/botmgr.go:183-186 | the bot goes into `bots` and the token out of `init` in one section |
| Managers.Manager.Get | internal/botmgr/botmgr.go:149-188 | one call among others, under any schedule that lets a mutex's holder finish: it returns the bot published for its token, or fails because its own build failed |
| Managers.FairScheduleExists | internal/botmgr/botmgr.go:169-170 | such a schedule always exists |
| IntText.JsonParseInt | internal/server/handlers.go:121-145 | accepts exactly an optional sign and one or more digits, yields the int64 congruent to the decimal value modulo 2^64, and leaves the target alone on failure; a positive offset on failure points at the first non-digit |
| IntText.ParseUnsigned | internal/server/handlers.go:121-145 | without a sign, one or more digits are accepted with their value |
| IntText.ParseSigned | internal/server/handlers.go:121-145 | after one plus or minus, one or more digits are accepted with that sign |
| IntText.ItoaS64 | internal/server/methods_stickers.go:113-133 | the digits of every int64 but the least, without running off the front of its 24 bytes |
| IntText.ParseOfFormat | internal/server/handlers.go:121-145 | the decimal text of every int64, the least included, parses to itself |
| IntText.ItoaReadsBackIff | internal/server/methods_stickers.go:113-133 | what itoaS64 prints is read back exactly when the number is not the least int64 |
| InlineMessageId.RoundTrip | internal/tlate/updates.go:323-334 | every inline message id of either variant, with any field values, is decoded from its text |
| InlineMessageId.AcceptedExactly | internal/server/inline_msg_id.go:16-47 | a text is accepted exactly when it is three or four integers joined by colons, three giving the short variant; the two errors are told apart by the number of parts |
| InlineMessageId.EncodeIs | internal/tlate/updates.go:323-334 | the fields of either variant in the order in which they are joined |
| InlineMessageId.DecodeIs | internal/server/inline_msg_id.go:16-47 | the parts are read into the fields in this order, each as the integer of its width congruent to the part's value |
| InlineMessageId.SplitJoins | internal/server/inline_msg_id.go:17-17 | splitting at colons loses nothing |
| Rle.RleEncode | internal/fileid/fileid.go:123-140 | the nested loops compute the specification of the encoding |
| Rle.RleDecode | internal/fileid/fileid.go:144-162 | the loop computes the specification of the decoding |
| Rle.DecodedByte | internal/fileid/fileid.go:144-162 | a byte other than zero stands for itself and a zero with a count for that many zeros |
| Rle.DecodeOfEncode | internal/fileid/fileid.go:121-162 | decoding undoes encoding on all byte strings, with zero runs of any length |
| Rle.CanonicalExactly | internal/fileid/fileid.go:121-162 | encoding undoes decoding exactly on canonical strings: every zero has a count of 1 to 255 and no run is split needlessly |
| Rle.EncodedIsCanonical | internal/fileid/fileid.go:123-140 | every encoding is canonical |
| Rle.EncodedLength | internal/fileid/fileid.go:123-140 | an encoding is at most twice as long |
| Rle.TrailingZeroKept | internal/fileid/fileid.go:142-162 | a lone zero after an encoding is decoded as a zero |
| FileIds.Encode | internal/fileid/fileid.go:50-67 | the text that is built step by step decodes, to what a file id keeps of the file |
| FileIds.Decode | internal/fileid/fileid.go:69-108 | the reader over the bytes yields the specified fields, and the two errors in the specified cases |
| FileIds.ReadIs | internal/fileid/fileid.go:69-108 | which bytes of an id of at least 26 bytes are read as which field |
| FileIds.IdentityBackExactly | internal/fileid/fileid.go:50-108 | every encoded id decodes; DC, type, id, access hash and file reference come back exactly when the type is below 2^24 and the reference has 1 to 255 bytes, or none with a photo size of a length divisible by 256 |
| FileIds.UniqueID | internal/fileid/fileid.go:110-119 | the text that is built step by step is the unique id of exactly the files with the same type, id and photo size |
| FileIds.UniqueExactly | internal/fileid/fileid.go:110-119 | unique ids are equal exactly when type, id and photo size are |
| FileIds.UniqueReads | internal/fileid/fileid.go:110-119 | the layout of a unique id: type, id and the photo size with its length byte |
| FileIds.UniqueAfterDecode | internal/server/methods_file.go:33-42 | the unique id taken after decoding is the original one exactly when the type is below 2^24 and there is no photo size |
| FilePaths.SignedFilePath | internal/server/methods_file.go:48-72 | the path that is built holds no slash and decodes to the payload followed by the first 16 bytes of its HMAC; it is accepted under the same key, and under another exactly when these bytes coincide |
| FilePaths.VerifyAndDecodeFilePath | internal/server/methods_file.go:74-106 | an info is returned exactly when the path, up to a slash, is base64 of a payload of at least 25 bytes that stands for this info, followed by the first 16 bytes of the payload's HMAC under the key |
| FilePaths.AcceptedExactly | internal/server/methods_file.go:74-106 | the same of the specification: acceptance, and what is returned, is the existence of such a payload |
| FilePaths.SignedIsAccepted | internal/server/methods_file.go:48-106 | a signed path is accepted under its own key, and under another one exactly when the tags coincide; a slash and what follows it change nothing |
| FilePaths.PathCarriesAll | internal/server/methods_file.go:28-106 | for every file id that decodes, checking the path made from it yields exactly what the id decoded to |
| FilePaths.LocationIs | internal/server/methods_file.go:155-172 | types 0 to 2 are fetched as photos with the thumb x, all others as documents, each by its own id, access hash and reference |
| FilePaths.DownloadsTheSameFile | internal/server/methods_file.go:28-172 | from a file over its id and its signed path to the download, the same location is fetched exactly when the reference fits and the low 24 bits of the type say photo just when the type does |
| ReplyMarkup.ParseReplyMarkup | internal/server/methods_core.go:159-285 | the rows hold, in order, the buttons that the objects ask for, without rows that ask for none: an inline button's kind is the first given of url, callback_data, web_app, login_url, switch_inline_query, switch_inline_query_current_chat, copy_text, pay and callback_game, and its fields are the members of that name; a keyboard button's kind and the kind and attributes of the whole markup are determined likewise |
| ReplyMarkup.ReplyMarkupToBotAPI | internal/tlate/tlate.go:151-239 | row by row and button by button, each button of every kind is shown by exactly its own JSON members, and the markup by its own |
| ReplyMarkup.ParseInlineIs | internal/server/methods_core.go:218-263 | the button made of an object is the one that it asks for, login buttons included; an object that asks for none makes none |
| ReplyMarkup.InlineButtonBack | internal/tlate/tlate.go:195-223 | an inline button is parsed back from its rendering exactly when it is of one of seven kinds, links and callbacks with a non-empty value, and its strings survive JSON, which replaces what is not UTF-8 |
| ReplyMarkup.ReplyButtonBack | internal/tlate/tlate.go:225-239 | a keyboard button is parsed back from its rendering exactly when it is of one of five kinds and its strings survive JSON |
| ReplyMarkup.KeptExactly | internal/server/methods_core.go:175-204 | filtering keeps exactly the buttons that parse, and no empty row |
| ReplyMarkup.BackExactly | internal/tlate/tlate.go:151-239 | a markup is parsed back from its rendering exactly when it has a row, no empty row and only such buttons, and its placeholder survives JSON |
| ReplyMarkup.NormalFormExactly | internal/server/methods_core.go:159-285 | for every object decoded from JSON, parsing the rendering of its parse gives the parse back exactly when the keyboard that counts has a usable button and no login_url decides one; remove, force-reply and empty markups always come back |

## Left out

- Network, storage, HTTP serving, the MTProto client and all RPCs: their outcomes are parameters or open choices of a step.
- The bodies of the update translator and of the POST: each update is translatable or not, each POST succeeds or not. An answer of getUpdates is the list of its ids.
- Wall-clock time: a wait may be ended by a timeout or a cancellation at any wake-up, so "returns by its deadline" is not claimed; sleeps count with their requested length.
- Process restarts and Manager.Shutdown: one process lifetime, one bot. Ids start again at 1 after a restart, and Shutdown clears the manager's maps under running calls.
- Overflow of the next-id counter and of the cache generations: they are unbounded here.
- Taking the drain lock is one step with the handler's first ack, and releasing it one step with the drainer's last ack; nothing but pushes and clears can fall between them, and no drain decision is made there.
- WebhookDeliverer.Run: covers any finite number of turns, with pushes and clears by others inside a turn; those that fall between two turns come before the next turn's snapshot, and other drainers between turns are covered by the step system.
- Setting and deleting webhooks are the start, stop and clear steps; which deliverer the bookkeeping map holds is not modelled, so several may be alive.
- Growth policy of Go's append: a new array is allocated only when the old one is used up.
- Base64 and HMAC-SHA256 are parameters: decoding undoes encoding and the URL alphabet has no slash (section 5 of RFC 4648), a tag has 32 bytes (section 2 of RFC 2104).
- JSON text: decoded objects are records with optional members. What writing a string as JSON and reading it back makes of it is a parameter; that strings which come out of JSON survive it is the one thing asked of it. A raw chat token is any text without a bar outside its string literals, which covers the text of every JSON value.
- Resolving a chat to a peer: two requests ask the same question when their raw chat tokens agree.
- Parameters of setMyCommands other than scope and language: they are checked before anything is changed.
- Markup attributes that neither parser nor renderer reads, and the markup of messages that carry none.
- The other handlers, metrics, logging, configuration and tracing: thin wrappers.
