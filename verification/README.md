# SignalForge node: verified models

SignalForge node is a scanner hub: it stores radio calls, groups them into conversations, fans them out to
WebSocket and stream listeners, accepts push-to-talk uploads, pulls calls from peer hubs, archives old calls, and
hands calls to transcription workers. A separate recorder agent cuts a block stream into calls. This project
models those protocols and algorithms in Dafny and proves what they guarantee.

Tables are maps, a SQL statement or a critical section under a mutex is one atomic step, and a failing database
statement, fetch, file operation or tool is a nondeterministic choice or an explicit event; a class whose methods can
fail has a constant `reliable`, and where it is true none of them does. Code that changes state step by step is a class
or a method with loops, proved against functions; concurrent protocols are state machines over their steps, with
theorems over every sequence of steps.

| files | component |
|---|---|
| `Conversations.dfy` | grouping of calls into conversations |
| `FederationSpec.dfy`, `Federation.dfy`, `FederationMesh.dfy` | pulling calls from peer hubs: queries, backfill, live pull, tables, and many hubs at once |
| `SourceIds.dfy`, `SqlLike.dfy` | ids of imported sources, LIKE patterns, removal of a peer's imports |
| `ReplaySpec.dfy`, `WsHub.dfy` | WebSocket hub with bounded queues and replay of missed calls |
| `PttIdempotency.dfy`, `PttServer.dfy` | push-to-talk idempotency under concurrency, the upload handler and the broadcast loop |
| `ArchiveSpec.dfy`, `CallArchive.dfy` | archive sweep |
| `Recorder.dfy` | voice-activated recorder |
| `CallQuery.dfy` | WHERE conditions with numbered placeholders |
| `StreamSpec.dfy`, `StreamHub.dfy` | public stream fan-out |
| `TranscriptionSpec.dfy`, `TranscriptionQueue.dfy` | transcription queue with leases |
| `Ordering.dfy`, `Text.dfy` | ORDER BY, and the string functions the models share |

Some promises fail on inputs the code accepts. Each has a lemma with its exact condition and one with a failing input:

- Replay lists at most 200 calls, so a reconnecting client can miss traffic although the comments in `hub.go` and
  `ListCallsSince` say none is lost: `ReplaySpec.MissedExactly`, with runs that miss calls in
  `ReplaySpec.UndisturbedReplay`, `ReplaySpec.MoreThanTheLimitIsMissed` and `ReplaySpec.ClientMissesACall`.
- Removing one peer's imports also removes another peer's when the first cleaned id is a proper prefix of the second's
  id, underscore and source: `SourceIds.CleanupHitsExactly`, with the input in `SourceIds.CleanupCanHitAnotherPeer`.
- Backfill against a peer that repeats one answer ends if and only if every id in it is positive or the positive ones
  fill the room under the cap: `FederationSpec.ConstantAnswerEndsIff`, with the input in `FederationSpec.ZeroIdNeverEnds`.
- A push-to-talk key is broadcast once for its row and once more for every request that went on without a row after a
  failed record or lookup: `PttIdempotency.HeardOnceIff`, with the inputs in `PttIdempotency.FailedRecordIsHeardTwice`
  and `PttIdempotency.FailedLookupIsHeardTwice`. Where the only errors are the key conflict and lost answers there is no
  such request: `PttIdempotency.NoFailuresNoStrays`.
- A call whose audio name ends in `.json` loses its audio when archived: `ArchiveSpec.WriteArchivesUnlessJson`, with the
  input in `ArchiveSpec.JsonNameLosesAudio`.
- The sync to object storage passes over a directory it cannot stat, without an error; once local copies have been
  removed, a call of the batch whose audio extension is not `.json` survives if and only if its day was not passed over
  or object storage had the call already: `CallArchive.SurvivesIffNotSkipped` and the contract of
  `CallArchive.Archive.ArchiveCallsBatch`, with the input in `CallArchive.SkippedDayIsLost`.
- The recorder loses voice in two ways: without a pre-roll the block that starts a recording is in no segment
  (`Recorder.VoiceIsRecordedIffPreRoll`, `Recorder.TriggerIsLost`), and a segment shorter than the minimum is discarded
  (`Recorder.ShortBurstIsDiscarded`). Every voiced block of every stream is queued if and only if there is a pre-roll of
  at least one block and no minimum above one block (`Recorder.EveryVoiceIsQueuedIff`; for one stream,
  `Recorder.VoiceIsQueuedIff`).
- A live pull never returns to ids below its cursor, so calls that become exportable after a pull has passed them are
  not imported by live pulls; exactly those are missing: `FederationSpec.LivePullsMissExactly`, with the input in
  `FederationSpec.SharedAgainIsMissed`.
- A call can be leased to two workers at once. While its last lease runs, it can be leased again if and only if its row
  is pending (`TranscriptionSpec.RunningLeaseIsRetakenIffPending`), and only putting the call back in the queue makes an
  existing row pending (`TranscriptionSpec.OnlyRequeueMakesPending`), so without a requeue in between leases are
  disjoint (`TranscriptionSpec.NoDoubleLease`). The input is in `TranscriptionSpec.RequeuedCallIsLeasedTwice`.

## Model

| member | source | states |
|---|---|---|
| Conversations.GroupCallsIntoConversations | server/internal/database/conversations.go:9-51 | the one-pass loop with its map from channel to open conversation computes `Grouped`, the function the lemmas below are about; parts are in order of start and, within one second, of id |
| Conversations.PartsAreChronological | server/internal/database/conversations.go:18-23 | in a conversation an earlier part starts earlier, or in the same second with no larger id, and no part comes before the header that way |
| Conversations.ConversationsAreInOrder | server/internal/database/conversations.go:18-48 | conversations are in order of the start and id of their headers |
| Conversations.LinkIs | server/internal/database/conversations.go:27-29 | the link of the components is one system and talkgroup, and a start between the other call's start and the gap after its end rounded up to a whole second |
| Conversations.ConversationsAreComponents | server/internal/database/conversations.go:27-49 | two calls share a conversation if and only if a chain of calls joins them in which each starts no earlier than its neighbour and no later than that one's end plus the gap, on one system and talkgroup |
| Conversations.GroupingConservesCalls | server/internal/database/conversations.go:17-50 | the parts of all conversations are a permutation of the input; count, total duration, end and header agree with the parts; parts are chronological; on one channel a conversation's end plus the gap is strictly before the next one's start |
| Conversations.OneConversationEach | server/internal/database/conversations.go:27-49 | no call is in two conversations |
| Conversations.RaisingGapOnlyMerges | server/internal/database/conversations.go:5-8 | under a larger gap every conversation lies inside a conversation |
| Conversations.GroupingIgnoresOrder | server/internal/database/conversations.go:17-23 | the result does not depend on the order of the rows when ids are distinct |
| Conversations.GroupingRestrictsToChannel | server/internal/database/conversations.go:25-48 | grouping and then keeping one channel equals keeping the channel and then grouping |
| Conversations.AllowanceIsGap | server/internal/database/conversations.go:13-15 | comparing whole seconds with the whole part of the gap is the source's float comparison; a negative gap counts as zero |
| Conversations.CallEndTimeRoundsUp | server/internal/database/conversations.go:58-67 | a call's end is the least whole second not before its start or its exact end |
| FederationSpec.ListRecentFederatedCalls | server/internal/database/calls.go:83-138 | the newest-first answer reversed in place is the last `limit` exportable ids below the cursor, ascending |
| FederationSpec.ListRecentIs | server/internal/database/calls.go:83-138 | the answer is ascending, below the cursor, and leaves an exportable id out only when it has as many as asked for (100 for a limit outside 1 to 250), all larger |
| FederationSpec.ListSinceIs | server/internal/database/calls.go:44-81 | the live answer is ascending, above the cursor, and leaves an exportable id out only when it has as many as asked for (100 for a limit outside 1 to 250), all smaller |
| FederationSpec.ListRecentIsSuffix | server/internal/database/calls.go:89-111 | the answer holds only ids below the cursor, everything from its first id up to the cursor, and is empty only when nothing is below |
| FederationSpec.ListSinceIsPrefix | server/internal/database/calls.go:49-61 | every prefix of a live answer holds exactly the exportable ids above the cursor up to its last id |
| FederationSpec.AdmitStaysInRoom | server/internal/api/federation.go:499-511 | a batch never adds more ledger rows than the cap leaves room for |
| FederationSpec.AdmitStops | server/internal/api/federation.go:500-503 | once the room is used up, the rest of the batch changes nothing |
| FederationSpec.BackfillFillsOrFinishes | server/internal/api/federation.go:402-446 | an error-free backfill against a fixed export list ends exactly at the cap or with every exportable id in the ledger, never above the cap, and what it added is a newest-first suffix of the list |
| FederationSpec.AdmitFillsOrAddsAll | server/internal/api/federation.go:499-511 | a capped batch adds every positive id that is new, or exactly as many as the cap leaves room for |
| FederationSpec.ConstantAnswerEndsIff | server/internal/api/federation.go:402-446 | against a remote that gives one answer to every request, the rounds of the loop come to an end if and only if all its ids are positive or the positive new ones fill the room under the cap |
| FederationSpec.ZeroIdNeverEnds | server/internal/api/federation.go:430-438 | below the cap, a remote that always answers one call with id 0 keeps the loop running |
| FederationSpec.PullLiveAdds | server/internal/api/federation.go:448-462 | a live pull that gets through any number of calls adds only exportable ids, moves the cursor forward and leaves no exportable id behind it |
| FederationSpec.WholePull | server/internal/api/federation.go:448-462 | a live pull that gets through its answer adds exactly the first 100 exportable ids above the cursor |
| FederationSpec.LivePullsMissExactly | server/internal/api/federation.go:448-462 | over any run of live pulls, some failing part-way, while remote calls are stored, withdrawn and shared again, the cursor never moves back, and between the starting and the present cursor exactly the ids are missing from the ledger that were not exportable when a pull passed them; there are no holes if and only if none of those is exportable now |
| FederationSpec.LivePullsLeaveNoHoles | server/internal/api/federation.go:448-462 | when nothing older becomes exportable meanwhile, every exportable id between the starting and the present cursor is in the ledger |
| FederationSpec.SharedAgainIsMissed | server/internal/database/calls.go:49-61 | a call shared after a pull has passed it is exportable, below the cursor and not in the ledger |
| FederationSpec.PublishedIsPulled | server/internal/api/federation.go:448-462 | a new call of the remote is in the ledger after the next whole pull unless 100 others come before it |
| FederationSpec.WithdrawnIsNotPulled | server/internal/api/federation.go:448-462 | a call withdrawn before a pull is not imported by it |
| Federation.PullingHub.RecordFederatedCallImport | server/internal/database/calls.go:184-198 | adds the ledger row unless the (peer, remote id) key is taken, and reports which; a failure adds nothing |
| Federation.PullingHub.UpsertFederatedSources | server/internal/api/federation.go:515-535 | offered sources become enabled, unshared, undeleted sources under prefixed ids with the offered system and metrics, keeping an existing owner; on a failure the first ones did |
| Federation.PullingHub.ImportFederatedCall | server/internal/api/federation.go:537-574 | publishes exactly when it adds the ledger row, for an unowned copy of the remote call under a prefixed source whose metrics are then counted; a repeated, refused or failed import changes neither ledger nor publications, though it may leave a call row; ids of 0 or less are skipped and change nothing; with a reliable database it fails exactly for audio that does not decode |
| Federation.PullingHub.ImportFederatedCalls | server/internal/api/federation.go:493-513 | wherever it fails, the peer's ledger is that of the processed prefix under the cap; other peers, local calls and local sources are untouched; every ledger row stays published exactly once; with a reliable database and decodable audio it does not fail |
| Federation.PullingHub.BackfillOnce | server/internal/api/federation.go:409-438 | one round of the loop, whatever the remote answers, is a `BackfillRound` with the answered ids, and never takes the ledger above the cap; only a failing statement or an unsound answer makes it fail |
| Federation.PullingHub.SyncBackfill | server/internal/api/federation.go:402-446 | terminates against any remote that comes to answer positive ids only, whatever else it answers, never takes the ledger above the cap, publishes each import once, and without failures computes `BackfillRun` against a remote with a fixed export list; with a reliable database and sound answers nothing fails |
| Federation.PullingHub.SmallestId | server/internal/api/federation.go:430-435 | the next cursor is the smallest id of the batch |
| Federation.PullingHub.SyncLive | server/internal/api/federation.go:448-462 | imports a prefix of the one live answer, all of it when nothing fails |
| Federation.PullingHub.SyncFederatedPeer | server/internal/api/federation.go:378-400 | with the cap 1000 for the status "listed" or "verified", trimmed and without case, and 500 for every other: a failure-free sync of a served peer below the cap ends backfill with everything exportable or exactly the cap, newest first; a peer at the cap is not backfilled; then the first 100 exportable ids above the largest imported one are added; the ids imported from other peers stay as they are; with a reliable database and sound answers nothing fails |
| Federation.PullingHub.DeleteFederatedPeerImports | server/internal/database/hub_identity.go:459-500 | in batches, exactly the call rows and sources matching the peer's pattern go, with the peer's ledger rows and those of removed calls; after a failed statement only such rows are gone; the counts are exact either way, and with a reliable database all of it goes |
| FederationMesh.ExportableWasUploaded | server/internal/database/calls.go:53-61 | what the export queries select was never imported |
| FederationMesh.ExportableIs | server/internal/database/calls.go:53-59 | exportable are exactly the stored calls whose source is known, shared, enabled, not deleted and without the prefix |
| FederationMesh.PullIs | server/internal/api/federation.go:537-574 | a pull of an exportable call stores one new call under the prefixed id of its source, which is enabled and unshared, and changes no other hub; any other pull changes nothing |
| FederationMesh.CallsTravelOneHop | server/internal/api/federation.go:537-611 | over any sequence of joins, uploads, source edits, pulls and deletions among any number of hubs, an exported call was uploaded at its hub, and an imported one was uploaded where it was pulled from and is not exported again |
| FederationMesh.OneHop | server/internal/api/federation.go:537-611 | from every reachable mesh, a call uploaded to a shared source is stored by a hub that pulls it, under the prefixed id; once deleted at its hub nothing can pull it |
| SqlLike.EscapedPrefix | server/internal/database/hub_identity.go:507-510 | an escaped text followed by a pattern matches exactly that text followed by a match of the pattern |
| SqlLike.EscapedMatchesOnlyItself | server/internal/database/hub_identity.go:507-510 | an escaped text matches only itself |
| SourceIds.RemotePatternIsPrefix | server/internal/database/calls.go:59 | the export queries' pattern matches exactly the ids that start with the prefix |
| Text.SpacesAre | server/internal/api/federation_limits.go:13 | the code points of Go's `unicode.IsSpace`, one by one |
| Text.TrimSpaceIs | server/internal/api/federation_limits.go:13 | trimming takes exactly the white space off both ends |
| Text.ToLowerIs | server/internal/api/federation_limits.go:13 | lower case moves the letters A to Z by 32 and nothing else |
| Text.OneDecimalIs | server/internal/database/transcriptions.go:182 | the printed number is the nearest tenth, a tie going to the even digit, with one digit after the point |
| SourceIds.CleanIs | server/internal/api/federation.go:604-606 | cleaning trims, turns colons, slashes and spaces into underscores and changes nothing else |
| SourceIds.FederatedSourceIdIs | server/internal/api/federation.go:604-611 | "remote", the cleaned peer and the cleaned source, "unknown" when blank, joined by underscores |
| SourceIds.ImportedIdsAreNeverExported | server/internal/api/federation.go:604-611 | every id built for an imported source matches that pattern |
| SourceIds.PeerPatternMeaning | server/internal/database/hub_identity.go:502-505 | the cleanup pattern matches exactly: "remote", any character, the cleaned peer id, and at least one more character |
| SourceIds.CleanupHitsExactly | server/internal/database/hub_identity.go:502-505 | a peer's pattern matches another peer's source id if and only if its cleaned id is a proper prefix of the other's cleaned id, underscore and source |
| SourceIds.CleanupHitsOwnSources | server/internal/database/hub_identity.go:502-505 | a peer's pattern matches every source id built for it |
| SourceIds.EqualLengthPeersAreSafe | server/internal/database/hub_identity.go:502-505 | peers whose cleaned ids differ and have one length never interfere |
| SourceIds.CleanupCanHitAnotherPeer | server/internal/database/hub_identity.go:502-505 | removing peer "hub" matches a source of peer "hub2" |
| ReplaySpec.ReplayListIs | server/internal/database/calls.go:399-436 | the replay list is ascending, above the cursor, and leaves a stored id out only when it has 200, all smaller; it has 200 entries or as many as there are |
| ReplaySpec.NoReplay | server/internal/api/calls.go:62-84 | without a cursor, and when the queries fail, no run replays a call |
| ReplaySpec.ReplaysTheFirst200 | server/internal/api/calls.go:78-120 | in every run with a cursor and working queries, what is replayed are the first 200 calls above the cursor of those stored when they were listed |
| ReplaySpec.ClientReceives | server/internal/api/hub.go:91-175 | under any interleaving of uploads, broadcasts, heartbeats, registration, replay, writes, failed writes and disconnection a call is queued at most twice, and for a client still registered after its replay exactly once per live broadcast and once per replay |
| ReplaySpec.NothingIsLost | server/internal/api/calls.go:58-120 | with a cursor, working queries and at most 200 calls above the cursor, every call above the cursor whose broadcast has run is queued for a client still registered after its replay, and reaches it unless a write fails |
| ReplaySpec.FailedWriteEndsDelivery | server/internal/api/hub.go:123-138 | after a failed write nothing more reaches the client, however long it stays registered |
| ReplaySpec.FailedWriteLosesTheRest | server/internal/api/hub.go:123-138 | from the first failed write on, whatever else happens, the client receives nothing but what was delivered before it |
| ReplaySpec.WritesDeliver | server/internal/api/hub.go:125-138 | as long as no write fails, what waits arrives in order |
| ReplaySpec.NothingQueuedAfterDisconnect | server/internal/api/hub.go:98-121 | after a disconnect nothing is queued for the client in any continuation |
| ReplaySpec.HeartbeatReaches | server/internal/api/hub.go:98-110 | a heartbeat reaches a client with fewer than 256 waiting and drops one with more |
| ReplaySpec.CommittedAreStored | server/internal/database/calls.go:399-436 | in every run the stored calls are those of the start and the committed ones, and only stored calls are announced |
| ReplaySpec.MissedExactly | server/internal/api/calls.go:78-120 | the announced calls such a client misses are exactly those announced before it registered with 200 or more stored calls between the cursor and them |
| ReplaySpec.UndisturbedReplay | server/internal/api/calls.go:62-120 | from any tables there is a run in which the client gets exactly the first 200 calls above the cursor, in order, and a sentinel with their number, and misses exactly the earlier announced calls with 200 or more in between |
| ReplaySpec.MoreThanTheLimitIsMissed | server/internal/api/calls.go:78-83 | with more than 200 announced calls above the cursor, some run ends with a registered client that misses one of them |
| ReplaySpec.ClientMissesACall | server/internal/api/calls.go:78-83 | with 202 calls and the cursor 1 an undisturbed client gets exactly the calls 2 to 201 and a sentinel that counts 200 |
| ReplaySpec.SentinelMeansReplayed | server/internal/api/calls.go:66-75 | a delivered replay_complete carries the cursor and the number of replayed calls, and all of them were delivered before it |
| WsHub.Hub.RemoveClientLocked | server/internal/api/hub.go:112-121 | a registered client is unregistered and its queue closed once; otherwise nothing happens |
| WsHub.Hub.EnqueueLocked | server/internal/api/hub.go:98-110 | appends while fewer than 256 are queued, drops the client when its queue is full, ignores a client that is not registered; never sends on a closed queue |
| WsHub.Hub.BroadcastForUsers | server/internal/api/hub.go:77-89 | every client gets its own message as if it were the only one; a full queue costs only that client its registration |
| WsHub.Hub.Broadcast | server/internal/api/hub.go:62-75 | the same with one message for all |
| WsHub.Hub.ReplayMissedCalls | server/internal/api/calls.go:62-120 | undisturbed, the first 200 stored calls above the cursor, or none without a cursor or when a query fails, are queued in order and then the sentinel with their number; a client whose queue overflows keeps the first 256 messages and is removed |
| PttIdempotency.OneCallPerKey | server/internal/api/ptt.go:75-166 | over any interleaving of any number of requests and database errors, all answers to one key carry the same stored call, the recorded one, except that a request that went on without a row answers with its own call, which no other answer carries |
| PttIdempotency.RetryStoresNothing | server/internal/api/ptt.go:75-82 | a request that arrives when its key has a row never stores a call, whatever happens afterwards, and answers with the recorded call on its first step unless it is turned away |
| PttIdempotency.LateCheckStoresNothing | server/internal/api/ptt.go:318-323 | a request that checks its key when there is a row answers with the recorded call and changes no table |
| PttIdempotency.OneBroadcastPerKey | server/internal/api/ptt.go:140-156 | apart from requests that went on without a row, a key is broadcast at most once, with the recorded call, by the request that wrote its row |
| PttIdempotency.AnsweredMeansBroadcast | server/internal/api/ptt.go:140-156 | once all requests of a recorded key have answered, the recorded call has been broadcast |
| PttIdempotency.HeardOnceIff | server/internal/api/ptt.go:140-156 | once all requests of a key have answered, it has been broadcast once per row and once per request that went on without one; so at most once if and only if there is no such request, or one and no row |
| PttIdempotency.NoFailuresNoStrays | server/internal/api/ptt.go:140-153 | where records fail only by the key conflict or after the row is written, and lookups work, no request goes on without a row |
| PttIdempotency.FailedRecordIsHeardTwice | server/internal/api/ptt.go:140-156 | an upload whose record fails, and its retry, are both broadcast |
| PttIdempotency.FailedLookupIsHeardTwice | server/internal/api/ptt.go:140-156 | of two racing requests with one key both are broadcast when the lookup after the conflict fails |
| PttIdempotency.LostAnswerIsHeardOnce | server/internal/api/ptt.go:140-156 | a record whose answer is lost leaves its row, and the call is broadcast once |
| PttIdempotency.StepsGetCloser | server/internal/api/ptt.go:318-361 | a request answers after at most five steps of its own, whatever fails and whatever others do |
| PttIdempotency.KeysOfOneBroadcast | server/internal/api/ptt.go:304 | within one broadcast, different radio sets have different keys |
| PttIdempotency.KeysAcrossBroadcasts | server/internal/api/ptt.go:304 | with colon-free set ids, keys of different broadcasts agree only for the same client id and set |
| PttServer.Server.RecordPttUpload | server/internal/database/ptt.go:40-48 | fails, and changes nothing, when the client id is taken; otherwise only a database error makes it fail, before or after the row is written |
| PttServer.Server.HandlePttUpload | server/internal/api/ptt.go:49-166 | without failures, the answer is the first of the source's rejections that applies, the recorded call of a known key, or the new call; a rejection or a known key changes nothing; a new key stores and broadcasts one call, and records it unless the record fails |
| PttServer.Server.DeliverPttToSet | server/internal/api/ptt.go:294-362 | a set that is not delivered to is reported and changes nothing; a known key answers with its call and changes nothing; a new key stores and broadcasts one call, and records it unless the record fails |
| PttServer.Server.HandlePttBroadcast | server/internal/api/ptt.go:280-291 | one result per set in order; without failures each is the recorded call of its key, so repeated sets answer alike, and rows are only added for this broadcast's keys, one broadcast each; whatever fails, old rows and calls stay and every answer is a stored call |
| ArchiveSpec.ArchiveAudioExtension | server/internal/api/call_archive.go:380-399 | the extension starts with a dot and contains no slash; it is the name's own in lower case, or else one of six by the parts of the media type |
| ArchiveSpec.FileNamesDiffer | server/internal/api/call_archive.go:339-369 | "call-", the id in decimal and the extension: two such names are equal if and only if both id and extension are |
| ArchiveSpec.WriteArchivesUnlessJson | server/internal/api/call_archive.go:333-378 | writing a call's two files keeps both if and only if the audio extension is not ".json" |
| ArchiveSpec.JsonNameLosesAudio | server/internal/api/call_archive.go:333-378 | a call with the audio name "a.json" is not archived by writing its files |
| CallArchive.SurvivesIffNotSkipped | server/internal/api/call_archive_s3.go:41-54 | a call archived locally whose day is synced and then removed survives if and only if the sync did not pass over that day or object storage had it before |
| CallArchive.SkippedDayIsLost | server/internal/api/call_archive_s3.go:41-54 | a call written to an empty archive is archived nowhere after a sync that passes over its directory and a completed removal |
| ArchiveSpec.NextBatch | server/internal/database/call_archive.go:52-70 | after the k oldest calls are deleted, the remaining order is the tail of the original one |
| ArchiveSpec.OldestAreGone | server/internal/database/call_archive.go:52-70 | deleting the first k of the order removes only rows from before the cutoff, and none that stays from before the cutoff is earlier by (start, id) than one that goes |
| ArchiveSpec.AudioBytesIs | server/internal/api/call_archive.go:268-275 | the bytes of a list of calls are as many as the positions in their audio |
| ArchiveSpec.DayOfIs | server/internal/api/call_archive.go:271 | a call's day is the 86400 seconds that hold its start |
| CallArchive.Archive.WriteCallArchiveFile | server/internal/api/call_archive.go:333-378 | success writes both files; failure touches only that call's files |
| CallArchive.Archive.SyncArchiveDirs | server/internal/api/call_archive_s3.go:15-55 | only copies local files of the given days, none of a day passed over; on success every file of the other days, and it counts those |
| CallArchive.Archive.RemoveArchiveDayDirs | server/internal/api/call_archive_s3.go:115-122 | removes only files of the given days, on success all of them |
| CallArchive.Archive.ArchiveCallsBatch | server/internal/api/call_archive.go:242-306 | whatever fails, only rows from before the cutoff are deleted, oldest first, and every call is still stored or has audio and manifest locally or in object storage, except deleted calls of days the sync passed over and that were then removed; a completed removal loses exactly those; without failure as many as the limit allows (500 outside 1 to 500) or all the old ones are archived, deleted and counted, and their audio bytes are freed; where nothing fails the batch succeeds, passes over no day and loses nothing |
| CallArchive.Archive.ArchiveCallsWithProgress | server/internal/api/call_archive_job.go:194-260 | the same over a whole sweep: whatever fails, only rows from before the cutoff are deleted, oldest first, and what is lost was deleted and is of a day passed over and removed; on success a deleted call with audio is archived if and only if it is not among the lost, archived = deleted = the rows gone, archived + remaining = n, the freed bytes are theirs, and a sweep not cut short leaves no row from before the cutoff, in max(1, ceil(n / limit)) batches; where nothing fails the sweep succeeds and loses nothing |
| CallArchive.RemoveKeeps | server/internal/api/call_archive.go:299-304 | removing any part of synced days loses at most the deleted calls of the days passed over that object storage does not have |
| CallArchive.RemoveLoses | server/internal/api/call_archive.go:299-304 | a completed removal leaves nothing of those calls, locally or in object storage |
| CallArchive.SweepRound | server/internal/api/call_archive_job.go:221-254 | the loop stops with everything archived after max(1, ceil(n / limit)) batches, or has used whole batches and has calls left |
| Recorder.Run | tools/p7-recorder/p7_recorder.py:232-296 | the loop with pre-roll queue, active blocks and silence counter queues exactly the clips of the segmentation, each of at least min_blocks and at most max(max_blocks, pre_roll_blocks + 1) blocks |
| Recorder.SegmentsAreOrdered | tools/p7-recorder/p7_recorder.py:255-291 | segments are ordered and disjoint; each starts with the pre-roll (or what there is of it) before the first voiced block after the previous segment, has at most max(max_blocks, pre_roll_blocks + 1) blocks, and closes where for the first time after its trigger a full silent run ends or the length limit is reached, or at the end of the stream |
| Recorder.VoicedBlocksAreCovered | tools/p7-recorder/p7_recorder.py:263-277 | with a pre-roll of at least one block every voiced block lies in a segment |
| Recorder.SegmentsDoNotOverlap | tools/p7-recorder/p7_recorder.py:255-291 | a block lies in at most one segment |
| Recorder.VoiceIsRecordedIffPreRoll | tools/p7-recorder/p7_recorder.py:238-269 | every voiced block lies in a segment, queued or discarded, if and only if there is a pre-roll of at least one block or nothing is voiced |
| Recorder.RecordingIsKeptSegments | tools/p7-recorder/p7_recorder.py:279-296 | what is queued is, in order, exactly the segments of at least min_blocks blocks, each as its slice of the stream |
| Recorder.ClipLengths | tools/p7-recorder/p7_recorder.py:276-284 | a queued clip has at least min_blocks blocks and at most max(max_blocks, pre_roll_blocks + 1) |
| Recorder.VoiceIsQueuedIff | tools/p7-recorder/p7_recorder.py:255-296 | for one stream, every voiced block is queued if and only if nothing is voiced, or there is a pre-roll and no segment is too short |
| Recorder.EveryVoiceIsQueuedIff | tools/p7-recorder/p7_recorder.py:235-284 | every voiced block of every stream is queued if and only if there is a pre-roll of at least one block and no minimum length above one block |
| Recorder.ShortBurstIsDiscarded | tools/p7-recorder/p7_recorder.py:279-285 | with a minimum of three blocks, one voiced block and one silent one make a segment of which nothing is queued |
| Recorder.TriggerIsLost | tools/p7-recorder/p7_recorder.py:238-269 | without a pre-roll, the block that triggers the first recording lies in no segment |
| Recorder.PreRollNeedsOneBlock | tools/p7-recorder/p7_recorder.py:235-238 | there is a pre-roll if and only if it is configured to last at least one block (or is as negative as a negative block length); the other limits are at least one |
| Recorder.LimitsAreWholeBlocks | tools/p7-recorder/p7_recorder.py:234-238 | silence, minimum and maximum length and pre-roll are the configured durations in whole blocks, the first three at least one |
| CallQuery.ListCallsQuery | server/internal/database/calls.go:200-231 | for all parameters the conjunction accepts exactly the wanted rows; every placeholder has an argument before the last two; LIMIT and OFFSET read the last two, a limit outside 1 to 1000 counting as 100 and a negative offset as 0; the order is by the named column, or the start, descending unless "asc" is asked for |
| CallQuery.LaterArgsDoNotMatter | server/internal/database/calls.go:479-533 | arguments appended later never change what an earlier condition means |
| CallQuery.Builder.AppendSearchFilter | server/internal/database/calls.go:479-497 | narrows the accepted rows by exactly the search, or not at all for a blank one |
| CallQuery.Builder.AppendTalkgroupsFilter | server/internal/database/calls.go:499-510 | narrows the accepted rows to the listed talkgroups unless the list is empty |
| CallQuery.Builder.AppendGroupsFilter | server/internal/database/calls.go:512-523 | narrows the accepted rows to the listed groups unless the list is empty |
| CallQuery.Builder.AppendGroupFilter | server/internal/database/calls.go:525-533 | narrows the accepted rows by the group pattern unless it is blank |
| CallQuery.Builder.AppendOwnerFilter | server/internal/database/calls.go:215-221 | narrows the accepted rows to the user's and the unowned ones, or to the unowned ones |
| CallQuery.PlainSearchIsSubstring | server/internal/database/calls.go:494-495 | a search text without special characters is found exactly in the texts that contain it |
| CallQuery.PlainSearchFinds | server/internal/database/calls.go:479-497 | such a search finds exactly the rows one of whose labels or whose transcript contains it without regard to case, or whose talkgroup number contains it |
| CallQuery.IntTextIs | server/internal/database/calls.go:493 | a number as text is a minus sign for a negative one and digits that read back as its size |
| StreamSpec.ListenersAreIndependent | server/internal/api/stream.go:97-138 | over any run each listener ends up as if it were the only one, so a full channel never changes what another receives |
| StreamSpec.HubDeliversExactly | server/internal/api/stream.go:97-252 | over any run of subscribe, push, update and unsubscribe a listener receives exactly the in-order subsequence of pushed calls that matched its subscription when pushed and found room |
| StreamSpec.NewListenerHears | server/internal/api/stream.go:97-252 | a new listener hears nothing of before, then, until it is unsubscribed, each matching call while fewer than 32 wait; only an update of its own set changes its subscription |
| StreamSpec.NothingAfterUnsubscribe | server/internal/api/stream.go:213-223 | an unsubscribed listener accepts nothing more |
| StreamSpec.WhoHearsPtt | server/internal/api/stream.go:58-84 | a push-to-talk call, uploaded or broadcast, is heard by a public player exactly when its set has a PTT talkgroup, names the talkgroup, or names a group "ptt" |
| StreamSpec.WhoHears | server/internal/api/stream.go:58-84 | a public player hears exactly the calls on a talkgroup or in a group of its set that are push-to-talk, by origin or by a talkgroup from 9000000 to 9999999, or belong to the set's owner, or come from a source the owner can read |
| StreamHub.Hub.PushCall | server/internal/api/stream.go:97-147 | each listed listener that matches and has fewer than 32 queued gets the call, and no other; nothing is sent on a closed channel |
| StreamHub.Hub.SubscribeListener | server/internal/api/stream.go:179-211 | appends a new listener with an open, empty channel and the normalised subscription |
| StreamHub.Hub.UnsubscribeListener | server/internal/api/stream.go:213-223 | removes the listener in place, keeps the others in order, and closes its channel once; a second call changes nothing |
| StreamHub.Hub.UpdateRadioSetTalkgroups | server/internal/api/stream.go:226-252 | replaces talkgroups and groups of exactly the listeners of one radio set |
| TranscriptionSpec.LeasesFollowStatus | server/internal/database/transcriptions.go:9-179 | in every run the lease fields are set exactly while a row is being processed, and attempts equals the number of claims |
| TranscriptionSpec.RunningLeaseIsRetakenIffPending | server/internal/database/transcriptions.go:90-136 | in every run, while the last lease of a call has not run out, the call can be claimed if and only if its row is pending |
| TranscriptionSpec.OnlyRequeueMakesPending | server/internal/database/transcriptions.go:9-179 | after every run, of all operations exactly the upsert with status "pending" makes an existing row pending that was not |
| TranscriptionSpec.NoDoubleLease | server/internal/database/transcriptions.go:90-136 | two claims of one call have disjoint leases unless the call was put back in the queue in between |
| TranscriptionSpec.LeaseRunsOut | server/internal/database/transcriptions.go:90-136 | a leased call that nobody touches is leased again if and only if more than its lease has passed |
| TranscriptionSpec.DeletedIsNeverLeased | server/internal/database/transcriptions.go:90-136 | after every run, a deleted call has no row and is not leased in any continuation |
| TranscriptionSpec.SelectionDecides | server/internal/database/transcriptions.go:72-88 | the talkgroups selected last decide which queued rows the bulk skip ends |
| TranscriptionSpec.RequeuedCallIsLeasedTwice | server/internal/api/calls.go:376-412 | a new call claimed before the upload handler queues it is leased again before the first lease ends |
| TranscriptionSpec.ClaimTakesLargest | server/internal/database/transcriptions.go:103-128 | a claim takes the largest claimable call, counting one attempt, and takes none only when none is claimable |
| TranscriptionQueue.Queue.ClaimTranscriptionJob | server/internal/database/transcriptions.go:90-136 | after missing rows were added, leases the largest id that is pending or whose lease has run out, for the worker and the lease time asked for (300 seconds when it is not positive), or reports that there is none |
| TranscriptionQueue.Queue.UpsertCallTranscriptStatus | server/internal/database/transcriptions.go:9-22 | creates the row or rewrites its status and message, releases the lease and keeps the attempts; fails for a call that is not stored |
| TranscriptionQueue.Queue.SkipShortPendingTranscriptionJobs | server/internal/database/transcriptions.go:51-69 | skips exactly the pending rows of calls with a positive duration below the minimum, with a message that names the minimum |
| TranscriptionQueue.Queue.SkipUnselectedPendingTranscriptionJobs | server/internal/database/transcriptions.go:71-88 | skips exactly the queued rows of calls on talkgroups not selected |
| TranscriptionQueue.Queue.CancelPendingTranscriptionJobs | server/internal/database/transcriptions.go:24-35 | skips exactly the pending and processing rows |
| TranscriptionQueue.Queue.EnsureTranscriptionQueueRows | server/internal/database/transcriptions.go:37-49 | every stored call gets a row; existing rows stay |
| TranscriptionQueue.Queue.CompleteTranscriptionJob | server/internal/database/transcriptions.go:138-153 | ends the job with its text, provider, language and confidence, whoever holds the lease; fails without a row |
| TranscriptionQueue.Queue.FailTranscriptionJob | server/internal/database/transcriptions.go:155-166 | ends the job as failed with its message, whoever holds the lease; fails without a row |
| TranscriptionQueue.Queue.SkipTranscriptionJob | server/internal/database/transcriptions.go:168-179 | ends the job as skipped with its message, whoever holds the lease; fails without a row |

## Left out

- HTTP routing, JSON and multipart decoding, sessions, logging, mail, ffmpeg, the WebSocket and SQL libraries: the models start from decoded values and atomic statements.
- Redaction and per-user visibility of calls (`canReadCall`, `redactCall`): a redacted call keeps its id, which is all the replay theorems use.
- `sortConversations` and the paging of `handleListConversations`: a library sort by a total comparison and a slice.
- The archive job's progress record and the vacuum scheduling: they only copy the sweep's totals.
- The dry run and the synchronous admin path of the archive: the latter does not take the sweep mutex; one sweep at a time is modelled.
- `flush_queue` and `upload_one` of the recorder: uploads of queued clips do not affect what is recorded.
- Loudness of a block, MP3 and WAV sniffing, file contents of WAV clips: loudness and audio bytes are inputs.
- `handlePublicCallAudio`, stream seeding and `resolveRadioSetTalkgroups`: they do not share the fan-out's state.
- Discord, incident and NWS handlers, the React client, the desktop and handheld programs.
- Numbers are unbounded; durations and gaps are reals instead of floats.
- Lower-casing folds only the ASCII letters, in Go's functions and in SQL LOWER alike.
- A broadcast or upload that stops between two statements because the process dies is only modelled where an event or a failure says so; a ledger row and its publication are never separated.
- Deleting calls is not part of the push-to-talk runs: a deleted call takes its ledger row with it, and a retry then stores a new call.
- PttServer.Server.DeliverPttToSet: runs with nobody in between, so the answer with another request's call is only in `PttIdempotency`.
- WsHub.Hub.ReplayMissedCalls: runs with nobody in between; interleavings are in `ReplaySpec`.
- Federation.PullingHub.SyncBackfill: requires a remote that from some answer on gives positive ids only, as database sequences do; one round, `BackfillOnce`, has no such requirement, and `FederationSpec.ConstantAnswerEndsIff` says when repeated rounds end.
- Federation.PullingHub.SyncFederatedPeer: the same requirement on the remote.
- Federation.PullingHub.ImportFederatedCall: the transcription row of an imported call and its creation time are not modelled.
- CallArchive.Archive.ArchiveCallsWithProgress: the cutoff is a parameter and no call is stored meanwhile; that directory names of different days differ is assumed.
- Recorder.Run: requires a block length other than 0, as the source divides by it; times and file names of clips are not modelled.
- TranscriptionQueue.Queue.ClaimTranscriptionJob: SKIP LOCKED is not modelled, as statements are atomic.
