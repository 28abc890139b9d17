# A verified model of the chat server's state machines

The repository is a small group-chat and voice-room server with a web client. Its logic
lives in short transactions over a few tables, in two in-memory services and in one client
store. This project models those state machines in Dafny and proves what they keep over
every run.

Every module has the same layout. The data model and a specification function for each
operation come first (`Note`, `Take`, `Apply`, ...). A class follows where the program
updates state in place; its methods are stated with the functions of the specification. The
lemmas then talk about runs of the specification: every run, every interleaving, and where
the program forgets something, the comparison with a history that forgets nothing.

| module | models | main results |
|---|---|---|
| `BanLadder` | the escalating ban table | the pruned table means the same as the full history, if and only if the steps fit the forget period; bans are justified, run their course, and top bans are rare |
| `AccountBans` | account blocks, counted top bans, automatic deletion | block, ban row and history agree; exactly the top bans with a successful cleanup are recorded; an account is deleted only after enough top bans, which take days |
| `RateBuckets` | persistent token buckets | eviction is unobservable if and only if a bucket refills within its lifetime; a call is denied if and only if some window has no room for it; Retry-After is tight if and only if the next token comes before the row expires |
| `AttachmentStorage`, `AttachmentFiles`, `AttachmentRows`, `AttachmentWeights`, `AttachmentQuota`, `AttachmentService` | reserve, process, move, commit, roll back | reservations are conserved, a rollback leaves nothing; a row has its file if and only if the orphan cleanup has not removed it; weighted quota for every run; the plain quota holds if and only if no file outgrows its reservation and nothing lies between release and insertion |
| `ScheduledDeletion` | the durable deletion of a user's attachments | converges however attempts fail and whatever others post in between; the request outlives failures; other users lose nothing; nobody is listed before the grace period |
| `OptimisticMerge` | the client's message list | response and echo commute if and only if no twin is in flight, also with other events in between; exactly which entry an echo takes; exactly when ids stay unique; places are kept |
| `Rooms` | temporary rooms and their cleanup | who is in which room; a removed empty room had no member since the cutoff; exactly which empty rooms are never marked |
| `SpamGuard` | warnings, cooldowns, stored group warnings | exactly which messages pass; cooldown if and only if warned before; levels and counts equal those of the full history |
| `GroupCleanup` | deletion of inactive groups | grace is honoured over all interleavings; a recent message protects, a neglected group goes |
| `EventHub` | the lossy event bus | every channel is a bounded queue of its own; panics if and only if a stop is repeated |
| `MessageContent` | fingerprints and content scans | the fingerprint is a canonical form; which texts are not nearly the same |

Times are whole Unix seconds, read once per step, and runs have non-decreasing times.
Integers are unbounded, token counts are reals; `Times(n, k)` is n times k. What comes from outside (the free disk
space, codec results, the voice gateway, answers of the limiters, random ids) is an input.

## What the proofs found

Properties that one would expect and that the code does not have in general. For each, the
exact condition or the failing family is a lemma.

* A ban step longer than the forget period lets pruning end a ban early
  (`TooLongAStepIsForgotten`). The exact condition for configurations is `PruneSafe`; the
  shipped one meets it.
* The quotas fail when audio or plain files may be larger than an archive, because a
  reservation counts `MaxArchiveBytes` per file. As shipped, 10 MiB files meet 5 MiB
  reservations (`ShippedLimits`). They also fail when uploads are opened while others have
  released their reservation and not yet inserted their rows. These two are the exact
  condition (`OwnerQuotaIff`, `TotalQuotaIff`); what holds in every run is `WeightedQuota`,
  and without a limit on that gap nothing is bounded (`GapIsUnbounded`).
* The cleanup of orphaned files looks for a row and then removes the file. A file that it
  finds between the move and the insertion of its upload is lost, and the row stays
  (`SweepLosesFile`, `MissingWasFoundEarly`). Otherwise every row has its file
  (`RowsHaveFilesIff`).
* The daily limit of new accounts never decides anything (`DailyLimitIsImplied`).
* A bucket whose row expires before it would have refilled gives a second burst
  (`EvictionShows`).
* Retry-After is not tight when the next token comes later than the row expires: a caller who
  stays quiet is admitted by the expiry, earlier than told, and one who polls keeps its row
  and waits longer (`RetryAfterIsTightIff`, `TightOnAllRunsIff`, `PollingDoesHarm`).
* Two sends of the same text in flight break the agreement of response and echo
  (`OrdersAgreeIff`, `TwinsDisagree`); a read receipt, a profile change or a deletion of the same message
  between the two does so as well (`ReadReceiptIsLost`, `ProfileChangeIsLost`,
  `DeletionIsUndone`).
* A late echo shows its message twice when the same text is pending again
  (`EchoKeepsUniqueIff`, `LateEchoDoubles`). The sender of an echo is not compared, so a
  message of somebody else can take a pending entry (`TakeOverArises`). A response shows its
  message exactly when no echo has taken its entry (`ShownIffNeverTaken`).
* When the deletion of a user empties somebody else's room, the room is not marked empty
  and the empty-room cleanup does not see it (`UnmarkedIff`, `AbandonedRoomArises`,
  `AbandonedStays`).
* A scheduled deletion that fails between deleting the messages and announcing all of them
  never announces the rest (`AllAnnouncedIff`, `AnnouncementsGetLost`). A file that the user
  uploads after the deletion has listed its files loses its row and stays on disk
  (`LateUploadLeavesFile`, `LeftBehindIff`).

Where comment and code differ, the model follows the code. The comment on `NoteViolation`
of `backend/internal/store/rate/store.go` speaks of violations that exceed the threshold,
the code bans when they reach it. The comment on the enforcer's `NoteViolation` speaks of
the IP, the code notes an authenticated violation under the account's key alone. An ignored
`NoteViolation` returns without a commit, so its pruning is undone. The ban row of an
account outlives the account.

## Model

| member | source | states |
|---|---|---|
| BanLadder.BanStore.NoteViolation | backend/internal/store/rate/store.go:83-150 | one transaction turns the whole table into `Note` of it, reports the new ban, and does nothing when bans are disabled |
| BanLadder.BanStore.IPBanActive | backend/internal/store/rate/store.go:177-190 | active exactly while the row's `until` is in the future |
| BanLadder.LadderRefinesHistory | backend/internal/store/rate/store.go:83-150 | on every run of calls of all keys, a call is ignored exactly while an earlier ban of its key runs; otherwise it bans exactly when the window of the full history reaches the threshold, at the level of the current escalation run |
| BanLadder.FaithfulIffPruneSafe | backend/internal/store/rate/store.go:103-149 | pruning is unobservable on all runs if and only if the first step of at least the forget period equals it |
| BanLadder.TooLongAStepIsForgotten | backend/internal/store/rate/store.go:103-123 | for any other policy a run is constructed in which a running ban is forgotten |
| BanLadder.BanIsJustified | backend/internal/store/rate/store.go:115-130 | under every policy, every ban of a run rests on `threshold` consecutive accepted violations of its key within the configured window, which is at least a second |
| BanLadder.BanRunsItsCourse | backend/internal/store/rate/store.go:112-135 | in every run a call is ignored if and only if an earlier ban of its key has not ended, and a ban ends exactly its step after it began |
| BanLadder.LevelOneAfterTop | backend/internal/store/rate/store.go:103-132 | in every run, the ban of a key after a top-level ban has level 1 when the last step is at least the forget period |
| BanLadder.TopBansAreRare | backend/internal/store/rate/store.go:103-139 | in every run, two top-level bans of one key are at least the forget period and all other steps apart, and all steps where pruning is unobservable |
| BanLadder.DefaultPolicy | backend/internal/abuse/config.go:56-59 | the shipped ladder is faithful, and its steps sum to 86770 seconds |
| AccountBans.Enforcer.NoteViolation | backend/internal/httpapi/ban/enforcer.go:49-91 | the sequence of writes with its early returns is `Apply` |
| AccountBans.RecordCountsAll | backend/internal/store/rate/store.go:155-174 | recording keeps exactly the rows inside the window and the new one, and the count is that of the unpruned rows and the new one |
| AccountBans.Enforcer.AccountBlockActive | backend/internal/store/rate/account_blocks.go:24-43 | active exactly while the block lasts; an expired row is removed |
| AccountBans.KeysAreDistinct | backend/internal/abuse/limiter.go:47-75 | the keys of accounts and addresses never collide |
| AccountBans.RunIsGood | backend/internal/httpapi/ban/enforcer.go:49-91 | over every run of requests, where pruning is unobservable: ban table, block row and pruned account-ban rows all agree with the full history of each existing account |
| AccountBans.RunCounts | backend/internal/store/rate/store.go:155-174 | over every run and under every policy, the pruned account-ban rows of an existing account count like the record that forgets nothing |
| AccountBans.RunTops | backend/internal/httpapi/ban/enforcer.go:71-91 | over every run, when the last step is at least the forget period, each recorded account ban is a top-level ban of the account's key, and they are far apart |
| AccountBans.RecordedIff | backend/internal/httpapi/ban/enforcer.go:71-84 | a request is recorded as an account ban if and only if it has just made a top-level ban in the history of an existing account and the cleanup succeeded |
| AccountBans.RecordsAreCleanedTops | backend/internal/httpapi/ban/enforcer.go:71-84 | over every run, the recorded bans of an account are exactly those, in order |
| AccountBans.BlockAgreesWithBan | backend/internal/httpapi/ban/enforcer.go:57-68 | block row, ban row and history say the same at any later time |
| AccountBans.DeletionIsRare | backend/internal/httpapi/ban/enforcer.go:71-91 | the account goes exactly when the full record's count reaches the limit; each counted ban is a top-level ban; `count - 1` times their least distance lie between the first and now: the forget period and all other steps, or the sum of all steps where pruning is unobservable |
| AccountBans.BackedTakesLong | backend/internal/httpapi/ban/enforcer.go:78-90 | a count that suffices for deletion takes `deletionCount - 1` times that distance |
| AccountBans.DefaultDeletion | backend/internal/abuse/config.go:56-61 | that is 347080 seconds as shipped |
| RateBuckets.RateStore.TakeRateLimit | backend/internal/store/rate/store.go:18-61 | prune, refill, spend or report a wait: the table and the answer are those of `Take` |
| RateBuckets.ConfiguredRefills | backend/internal/abuse/config.go:65-70 | a limit refills within the row lifetime if and only if its refill period fits into it |
| RateBuckets.EvictionUnobservable | backend/internal/store/rate/store.go:31-60 | with pruning on every call, every key whose limits refill within the row lifetime gets the answers and waits of a bucket that is never evicted, whatever the limits of other keys |
| RateBuckets.UnobservableIffRefills | backend/internal/store/rate/store.go:31-60 | for a fixed limit this holds on all runs if and only if the bucket refills within its lifetime |
| RateBuckets.WindowBound | backend/internal/store/rate/store.go:43-60 | at most C + r (t - s) calls are allowed in [s, t], with limits of the key varying from call to call and any limits on other keys |
| RateBuckets.DenialHasCause | backend/internal/store/rate/store.go:31-60 | under a fixed limit, also with rows evicted, a denied call ends some window [s, now] in which more than C - 1 + r (now - s) calls of its key were allowed |
| RateBuckets.DeniedIffNoRoom | backend/internal/store/rate/store.go:31-60 | when the limit refills within the row lifetime, a call is denied if and only if there is such a window: the bucket is a sliding window |
| RateBuckets.RetryAfterIsTightIff | backend/internal/store/rate/store.go:31-54 | after every run and for every denied call: the wait is n or n - 1 where n is the least delay that brings a token, nobody is admitted before n and the key is admitted at n, however it has polled, if and only if the limit holds a token and n is at most the row lifetime |
| RateBuckets.TightOnAllRunsIff | backend/internal/store/rate/store.go:31-54 | for a fixed limit this holds after all runs if and only if the limit holds a token and one comes in during the row lifetime |
| RateBuckets.PollingDoesHarm | backend/internal/store/rate/store.go:31-54 | one token per 10 hours and rows of 6 hours: told 36000 seconds, admitted after 21600 when quiet, still denied then after a poll |
| RateBuckets.ConfiguredYieldsOne | backend/internal/abuse/config.go:65-70 | a configured limit brings one token within the row lifetime if and only if the refill period divided by the capacity fits into it |
| AttachmentStorage.ProcessedFits | backend/internal/attachments/processor.go:30-156 | no processed file is empty or larger than the largest of the three limits |
| AttachmentStorage.AcceptedIff | backend/internal/attachments/processor.go:30-156 | which uploads are accepted and with what size: the bytes that were sent count, whatever was declared, and the limit of the kind |
| AttachmentStorage.DailyLimitIsImplied | backend/internal/attachments/storage/files.go:138-173 | the daily limit refuses nothing that the stored quota would not |
| AttachmentStorage.ReservationConserved | backend/internal/attachments/storage/files.go:50-136 | in every interleaving the reservation is the sum over open batches, and each batch holds all or nothing of its share |
| AttachmentFiles.ClosedForGood | backend/internal/attachments/storage/files.go:115-136 | a closed batch keeps its files and reserves nothing again, and ends inserted or rolled back |
| AttachmentFiles.RollbackLeavesNothing | backend/internal/attachments/storage/files.go:115-126 | after a rollback no file of the batch exists, then or later |
| AttachmentRows.RowsHaveFilesIff | backend/internal/attachments/storage/files.go:95-111 | in every interleaving each row describes exactly one moved file of one inserted upload, no two rows share a file, and the file is on disk if and only if the orphan cleanup has not removed it |
| AttachmentRows.MissingWasFoundEarly | backend/internal/attachments/cleanup/cleanup.go:44-79 | a row's file is missing only when the cleanup found it before the row was inserted |
| AttachmentRows.CleanupRemovesOrphans | backend/internal/attachments/cleanup/cleanup.go:44-79 | the cleanup finds exactly the stored files without a row, and removes what it has found |
| AttachmentRows.DeletedRowTakesFile | backend/internal/attachments/cleanup/cleanup.go:29-41 | in every run, a deleted row takes its file along when that is unlinked, and otherwise leaves a file without a row |
| AttachmentRows.SweepLosesFile | backend/internal/attachments/cleanup/cleanup.go:44-79 | a run in which it does |
| AttachmentWeights.QuotaGrows | backend/internal/attachments/limits.go:30-45 | an account's quota never shrinks as it ages |
| AttachmentWeights.WeightedQuota | backend/internal/attachments/storage/files.go:54-113 | in every run A * stored + M * reserved <= M * quota + A * gap, for all files and for each owner at its own age, where gap is the most that lies between release and insertion when the scope opens an upload |
| AttachmentQuota.OwnerQuotaIff | backend/internal/attachments/storage/files.go:54-63 | an account stays within its quota if and only if no processed file exceeds its reservation and nothing lies in the gap when it opens an upload |
| AttachmentQuota.TotalQuotaIff | backend/internal/attachments/storage/files.go:54-63 | the same for all files together, when the accounts can fill the total at all |
| AttachmentQuota.ShippedLimits | backend/internal/config/config.go:107-124 | as shipped, an account can exceed its 50 MiB, but never 100 MiB and what lies in the gap |
| AttachmentQuota.GapIsUnbounded | backend/internal/groups/messages.go:146-156 | without a limit on the gap any amount can be stored: uploads opened while others are in it are admitted again and again |
| AttachmentService.Service.Reserve | backend/internal/attachments/storage/files.go:138-173 | reserves exactly when all quotas and the disk allow it, and says which check failed |
| AttachmentService.Service.Prepare | backend/internal/attachments/storage/files.go:50-79 | succeeds exactly when inputs, quotas and processing allow; a failure leaves reservation and disk as before |
| AttachmentService.UploadBatch.Commit | backend/internal/attachments/storage/files.go:82-113 | moves every file and releases, or rolls back; a closed batch is refused; as steps of the upload these are its moves and the release, or the moves up to the one that fails |
| AttachmentService.UploadBatch.Rollback | backend/internal/attachments/storage/files.go:115-136 | removes all files and gives back what is still reserved, once |
| AttachmentService.Service.Send | backend/internal/groups/messages.go:92-162 | the steps of the commit and an insertion, or a rollback at the end: either each file has a row that names its destination, where it is, or there are no rows and no files; nothing stays reserved |
| ScheduledDeletion.Service.ScheduleDeleteAll | backend/internal/store/attachments/deletion.go:17-27 | the first request stays and is returned, with the grace period |
| ScheduledDeletion.Service.CancelDeleteAll | backend/internal/store/attachments/deletion.go:45-58 | removes the user's request, or reports that there is none |
| ScheduledDeletion.Service.RunDelete | backend/internal/attachments/account/service.go:103-125 | stopped by a failure after any number of effects, the world is `Attempt` after that many |
| ScheduledDeletion.Service.RunDueDeletes | backend/internal/attachments/account/service.go:87-101 | runs requests whose execution time has come, the earliest up to the limit, and leaves one out only when the batch is full; a dropped one leaves no row of its user; a failure of one does not hold up the others |
| ScheduledDeletion.ListedHasWaited | backend/internal/store/attachments/deletion.go:60-83 | over every run of requests, withdrawals and finished deletions, whoever is listed asked at least 300 seconds before and has not withdrawn that |
| ScheduledDeletion.WaitedIsListed | backend/internal/store/attachments/deletion.go:60-83 | whose request has stood for 300 seconds is listed unless the batch is full |
| ScheduledDeletion.Service.DeleteUserAttachmentMessages | backend/internal/store/attachments/deletion.go:105-144 | deletes the messages of the user's attachments and, by cascade, all rows of those messages |
| ScheduledDeletion.DeletionConverges | backend/internal/attachments/account/service.go:87-125 | whenever an attempt finishes, after any failures, and with posts and withdrawals of others between any two effects: the same files, rows, messages and requests as one undisturbed deletion |
| ScheduledDeletion.RequestOutlivesFailures | backend/internal/attachments/account/service.go:103-125 | the request is there until the last effect; once it is gone, so are all files and rows of the user |
| ScheduledDeletion.LateUploadLeavesFile | backend/internal/store/attachments/deletion.go:105-144 | an upload of the user between listing and transaction loses its message and rows, and its file stays |
| ScheduledDeletion.LeftBehindIff | backend/internal/attachments/account/service.go:103-125 | with posts and withdrawals of others and uploads of the user between listing and transaction: no row of the user is left, and of his files exactly the uploads since the listing, so none if and only if there are none |
| ScheduledDeletion.AttachmentsAreOwned | backend/internal/groups/messages.go:146-156 | in every run of the service, every attachment belongs to the author of its message |
| ScheduledDeletion.OthersAreUntouched | backend/internal/store/attachments/deletion.go:105-144 | at every point of every run, all files, rows and messages of other users are there |
| ScheduledDeletion.AllAnnouncedIff | backend/internal/attachments/account/service.go:114-125 | when an attempt finishes, each attachment has been announced exactly once if and only if no attempt failed between the transaction and its last announcement |
| ScheduledDeletion.AnnouncementsGetLost | backend/internal/attachments/account/service.go:114-125 | a run, for every user with an attachment, in which one did and announcements are lost |
| OptimisticMerge.GroupsStore.BeginSend | web-client/src/app/core/events/groups.store.ts:117-136 | appends the pending entry unless there is no group, user or text |
| OptimisticMerge.GroupsStore.FinishSend | web-client/src/app/core/events/groups.store.ts:138-146 | a response puts its message at the place of the pending entry and changes nothing else; a failure marks that entry alone |
| OptimisticMerge.GroupsStore.MergeMessage | web-client/src/app/core/events/groups.store.ts:158-164 | merges an echo of the open group and reports whether to send a read receipt |
| OptimisticMerge.EchoTakesOnlyTwins | web-client/src/app/core/events/groups.store.ts:253-258 | an echo changes no entry but a pending one of my user with the group and the text of its message |
| OptimisticMerge.FirstTwinIsTaken | web-client/src/app/core/events/groups.store.ts:253-258 | the first such entry becomes the message at its place, and nothing else changes |
| OptimisticMerge.NewMessageIsAppended | web-client/src/app/core/events/groups.store.ts:259-260 | without one the message is appended unless it is shown |
| OptimisticMerge.OtherTextsNeverTake | web-client/src/app/core/events/groups.store.ts:242-261 | after any run of events about other messages in which no echo has the text of my send, the response shows my message |
| OptimisticMerge.GroupsStore.RemoveMessage | web-client/src/app/core/events/groups.store.ts:177-179 | no entry of the id is left, and every other entry is |
| OptimisticMerge.GroupsStore.OpenGroup | web-client/src/app/core/events/groups.store.ts:71-83 | exactly the loaded messages are shown, none of them pending for any later echo; before that `CloseGroup` empties the list |
| OptimisticMerge.OrdersAgreeIff | web-client/src/app/core/events/groups.store.ts:242-266 | both orders give the same list if and only if no other in-flight send looks like the echo |
| OptimisticMerge.TwinsDisagree | web-client/src/app/core/events/groups.store.ts:242-261 | two sends of one text, and the two orders of response and echo of the second end in different lists |
| OptimisticMerge.OrdersAgreeAcrossEvents | web-client/src/app/core/events/groups.store.ts:117-179 | the same with any run of events about other messages in between |
| OptimisticMerge.IdsStayUniqueIff | web-client/src/app/core/events/groups.store.ts:117-179 | through every interleaving of sends, responses, failures, echoes, deletions, receipts, profile changes and changes of group, chat ids stay unique if and only if every step is clean |
| OptimisticMerge.EchoKeepsUniqueIff | web-client/src/app/core/events/groups.store.ts:253-261 | an echo is clean if and only if it does not take a pending entry while its message is shown elsewhere |
| OptimisticMerge.ResponseKeepsUnique | web-client/src/app/core/events/groups.store.ts:242-251 | a response always is |
| OptimisticMerge.LateEchoDoubles | web-client/src/app/core/events/groups.store.ts:253-261 | a run that shows one message twice: its echo comes when the same text has been sent again |
| OptimisticMerge.ShownIffNeverTaken | web-client/src/app/core/events/groups.store.ts:242-261 | after any run of events about other messages, also with the same text, the response shows its message if and only if no echo has taken the pending entry |
| OptimisticMerge.ForeignTakesOver | web-client/src/app/core/events/groups.store.ts:253-261 | a message of somebody else with the text of my pending entry takes it, and my response then shows nothing |
| OptimisticMerge.TakeOverArises | web-client/src/app/core/events/groups.store.ts:117-146 | a run that ends so |
| OptimisticMerge.MergesKeepPlaces | web-client/src/app/core/events/groups.store.ts:242-261 | when echoes match only their own entries, a response or an own echo moves, adds and drops nothing, and any other echo only appends a message that is neither shown nor pending |
| OptimisticMerge.RunIsSound | web-client/src/app/core/events/groups.store.ts:117-179 | that situation lasts through every such run |
| OptimisticMerge.PlacesAreKept | web-client/src/app/core/events/groups.store.ts:117-179 | two messages, pending or sent, keep their order through every run that does not delete, fail or close away one of the two and in which no echo takes the pending entry of one of them for another message, whatever happens to all other entries |
| OptimisticMerge.ReadReceiptIsLost | web-client/src/app/core/events/groups.store.ts:166-168 | a receipt between echo and response is lost unless the response says read |
| OptimisticMerge.ProfileChangeIsLost | web-client/src/app/core/events/groups.store.ts:185-188 | so is a change of the author's profile, unless the response has it |
| OptimisticMerge.DeletionIsUndone | web-client/src/app/core/events/groups.store.ts:177-179 | a deletion between response and echo is undone by the echo, between echo and response it holds |
| Rooms.RoomStore.InsertRoom | backend/internal/store/rooms/rooms.go:26-47 | a new room with its owner as member, or a conflict |
| Rooms.RoomStore.JoinRoom | backend/internal/store/rooms/rooms.go:101-147 | not found, full, conflict, or a member more and no mark |
| Rooms.RoomStore.LeaveRoom | backend/internal/store/rooms/rooms.go:149-184 | a member less, and a mark when nobody is left |
| Rooms.RoomStore.DeleteRoom | backend/internal/store/rooms/rooms.go:186-214 | gone exactly when it is open, asked for by its owner, and the call could be ended; otherwise the reason |
| Rooms.RoomStore.CleanupBannedUser | backend/internal/store/store.go:153-183 | leaves all rooms of the user and marks those that are empty now |
| Rooms.RoomStore.DeleteEmptyRooms | backend/internal/app/cleanup.go:77-95 | removes exactly the listed rooms whose call could be ended |
| Rooms.RunIsGood | backend/internal/store/rooms/rooms.go:101-184 | at most `max` members in every run, and a marked room is empty |
| Rooms.RoomExistsIff | backend/internal/store/rooms/rooms.go:186-270 | over every run, a room is there if and only if it was made and has not since been deleted by its owner with its call ended, gone with its owner, been marked for long enough, or expired |
| Rooms.RoomIsAsMade | backend/internal/store/rooms/rooms.go:26-47 | its owner and its times are those with which it was made |
| Rooms.MemberIff | backend/internal/store/rooms/rooms.go:101-184 | over every run, the members of a room are exactly those who entered it, as its maker or with a place while it was open, and have since not left it while it was open, nor been banned or deleted |
| Rooms.EmptySinceMark | backend/internal/store/rooms/rooms.go:149-184 | the mark says since when the room has had no member |
| Rooms.RemovedRoomWasEmpty | backend/internal/app/cleanup.go:77-95 | a room removed by the empty path existed at the cutoff and has had no member since, with any steps between listing and removal |
| Rooms.UnmarkedIff | backend/internal/store/store.go:139-183 | in every run an empty room is unmarked if and only if its last member went with the deletion of a user and nobody has sent a leave since |
| Rooms.AbandonedRoomArises | backend/internal/store/rooms/rooms.go:149-184 | a run that makes such a room |
| Rooms.AbandonedStays | backend/internal/store/rooms/rooms.go:234-261 | an unmarked empty room stays out of the empty path's reach until somebody joins or leaves |
| SpamGuard.Guard.Check | backend/internal/antispam/guard.go:51-137 | the order of checks, with warning, cooldown, stored warning and isolation as `Apply` says |
| SpamGuard.OutcomeIff | backend/internal/antispam/guard.go:51-137 | over every run, a message passes if and only if it is not too long, no cooldown of the full record runs, the interval is kept, and no detector and no limiter objects |
| SpamGuard.Guard.CreateGroupSpamWarning | backend/internal/store/store.go:203-227 | prune, then store unless one is recent, and return the count inside the window |
| SpamGuard.Guard.RecordMessageViolation | backend/internal/store/group_security.go:116-140 | the level rises by one up to four, or starts over after more than a day |
| SpamGuard.WarningPrecedesCooldown | backend/internal/antispam/guard.go:139-147 | an offence brings a cooldown if and only if the user was warned less than a refill period ago, with no clean message or restart in between |
| SpamGuard.CooldownIsHistory | backend/internal/store/group_security.go:116-140 | the stored level is the length of the current run of records, at most four |
| SpamGuard.FourLengths | backend/internal/store/group_security.go:116-140 | stored cooldowns last 60, 300, 1800 or 7200 seconds by level |
| SpamGuard.CooldownsDoNotOverlap | backend/internal/antispam/guard.go:55-60 | no cooldown is recorded before the end of an earlier one |
| SpamGuard.EndsIncrease | backend/internal/store/group_security.go:131-135 | in every run, the ends of the cooldowns of one user in one group strictly increase |
| SpamGuard.RowsAreHistory | backend/internal/store/store.go:209-227 | inside the window the pruned table holds the full history, whoever triggered the pruning |
| SpamGuard.StoredIffNoneRecent | backend/internal/store/store.go:210-223 | over every run, a message has a warning stored if and only if it is warned or cooled, is at least the third similar one, of at least two other users, and the full history has no warning of the group within the cooldown |
| SpamGuard.WarningsAreSpaced | backend/internal/store/store.go:210-223 | stored warnings of a group are at least the cooldown apart |
| SpamGuard.IsolationNeedsThree | backend/internal/antispam/context.go:17-35 | isolation is asked for if and only if this message stores at least the third warning in 30 days |
| GroupCleanup.Table.AddMessage | backend/internal/store/groups.go:227-245 | a message sets the activity and cancels the schedule |
| GroupCleanup.Table.RunCleanup | backend/internal/groups/cleanup/cleanup.go:40-83 | when nothing comes in between: the two steps of a run; a dry run does nothing |
| GroupCleanup.ScheduleIsQuiet | backend/internal/store/group_profiles.go:152-169 | a schedule goes back to a run that found the group inactive, and no message came since |
| GroupCleanup.GraceIsHonoured | backend/internal/groups/cleanup/cleanup.go:71-79 | a deleted group was scheduled at least its grace ago, is inactive and unprotected, and got no message in between, with other requests between any two transactions |
| GroupCleanup.PickedIsStale | backend/internal/store/group_profiles.go:152-195 | a group that is scheduled or deleted has had its last message, or its creation, more than the configured time before the start of the run |
| GroupCleanup.RecentMessageProtects | backend/internal/store/groups.go:240-243 | so a message within that time keeps the group out of both batches, when messages come in the order of their times |
| GroupCleanup.StaleIsScheduled | backend/internal/store/group_profiles.go:152-169 | an inactive, unprotected, unscheduled group is left out only when the batch is full of groups at least as old |
| GroupCleanup.NeglectedIsDeleted | backend/internal/store/group_profiles.go:171-206 | a scheduled group that is left alone is deleted by the first run that begins after its grace, unless that batch is full |
| GroupCleanup.ProtectedSurvives | backend/internal/store/group_profiles.go:152-195 | a protected group stays through every run, with messages or without |
| GroupCleanup.ExistsIff | backend/internal/store/groups.go:227-245 | over every run, a group is there if and only if it has been created and not removed since |
| GroupCleanup.MessageSaves | backend/internal/store/groups.go:227-245 | a message between the two transactions of a run saves its group |
| GroupCleanup.NoCandidatesNoWork | backend/internal/groups/cleanup/cleanup.go:51-58 | the early return skips no work |
| EventHub.Hub.Subscribe | backend/internal/groups/hub/hub.go:50-67 | a new open channel, registered under its user |
| EventHub.Hub.Stop | backend/internal/groups/hub/hub.go:58-67 | deregisters and closes; closing twice panics |
| EventHub.Hub.Online | backend/internal/groups/hub/hub.go:68-72 | online exactly when the user has an open channel |
| EventHub.Hub.Publish | backend/internal/groups/hub/hub.go:73-84 | offers the event to every channel of every named user, never to a closed one |
| EventHub.RunIsValid | backend/internal/groups/hub/hub.go:50-84 | in every run exactly the open channels are registered, and none holds more than 16 events |
| EventHub.StuckIffStoppedTwice | backend/internal/groups/hub/hub.go:58-67 | the hub panics if and only if some stop function is called twice |
| EventHub.ChannelsAreSubscriptions | backend/internal/groups/hub/hub.go:50-67 | until then there is one channel for each subscription, of its user, open until it is stopped |
| EventHub.HubIsQueues | backend/internal/groups/hub/hub.go:50-84 | each channel is a bounded queue of its own that is offered the events addressed to its user while it is open |
| EventHub.ReaderSeesStream | backend/internal/groups/hub/hub.go:73-84 | in every run, what a reader has taken and what waits for it are the events offered while its channel was open, in order, without exactly those offered while 16 were unread |
| MessageContent.ComputeFingerprint | backend/internal/antispam/similarity.go:45-68 | the scan loop computes `Fingerprint` |
| MessageContent.FingerprintIsCanonical | backend/internal/antispam/similarity.go:45-68 | fingerprints are canonical, a text is its own fingerprint if and only if it is canonical, and taking it twice changes nothing |
| MessageContent.FingerprintKeepsLetters | backend/internal/antispam/similarity.go:48-66 | all letters and digits stay in order, except third and later copies in a row |
| MessageContent.StretchingIsIgnored | backend/internal/antispam/similarity.go:48-66 | a third copy of a letter changes nothing, even across other characters |
| MessageContent.NearlySameIsSymmetric | backend/internal/antispam/similarity.go:28-43 | the comparison is symmetric and ignores spacing |
| MessageContent.NearlySameIff | backend/internal/antispam/similarity.go:28-43 | two texts are nearly the same if and only if both are not empty and they have the same letters, at least 84 percent of their long words in common, or the longer is the shorter with at most four more characters around it |
| MessageContent.LongWordsStand | backend/internal/antispam/similarity.go:70-82 | the compared words are those of at least three characters between blanks |
| MessageContent.SharedWords | backend/internal/antispam/similarity.go:70-96 | the counting loop decides whether 84 percent of the words are shared |
| MessageContent.CountSimilar | backend/internal/antispam/similarity.go:11-26 | counts the similar messages, this one included, and their distinct authors |
| MessageContent.HasRepeatedLine | backend/internal/antispam/guard.go:167-180 | true if and only if some line of at least eight bytes occurs four times |
| MessageContent.DominantRepeatedRune | backend/internal/antispam/guard.go:182-196 | true if and only if some character occurs 25 times in a row |

## Left out

- SQL text, migrations, driver errors: tables are maps and sequences, and each transaction is one step.
- Sub-second times: seconds are whole, and clocks of successive steps do not run backwards.
- Floating-point rounding in buckets: token counts and rates are reals.
- 64-bit widths: integers are unbounded.
- The gaps between the separate transactions of one request: one request is one step, except in the attachment protocol, the scheduled deletion and the cleanups of rooms and groups, where other requests may come between any two transactions or effects.
- Registration during a run of `AccountBans`: the accounts of a run are fixed, and one that has not registered yet sends nothing.
- Expired attachments: the removal of a file and of its row is one step, and so is a moved file and its entry in the batch.
- ScheduledDeletion.DeletionConverges: assumes that the user uploads nothing and does not withdraw messages with attachments until the deletion is through; what becomes of an upload is `LateUploadLeavesFile`.
- ScheduledDeletion.Service.RunDueDeletes: requests that are due at the same second come in any order, not in that of their ids.
- Cancelling a scheduled deletion that is already listed: the listed run goes on, which the model shows by not looking at the request before the last effect.
- OptimisticMerge.PlacesAreKept: assumes fresh random ids and that a response carries the message of its send.
- OptimisticMerge.OrdersAgreeAcrossEvents: is about an echo that matches its own entry; the events in between are about other messages and other people, in the same group. For the message itself and its author see `ReadReceiptIsLost`, `ProfileChangeIsLost` and `DeletionIsUndone`.
- OptimisticMerge.ShownIffNeverTaken: the message's own echo is not among the events; with it see `OrdersAgreeIff`.
- AttachmentService.Service.Prepare: is stated with the functions of the steps, not as a sequence of steps.
- Sending with files in the client: its response is merged like an echo, but without the check that the group is still open.
- Group list, refresh timers and the current group's own profile in the client store.
- A message's rendered text for system events.
- GetRoom, room lists and join times: reads without state of their own.
- SpamGuard.Guard.Check: which of the five reasons applies is an input, and so are the counts of similar messages; two of them are modelled in `MessageContent`, and the deletion of recent messages is not.
- Group isolation levels and removal of join candidates.
- Idempotency keys of messages.
- MessageContent.ComputeFingerprint: lower-casing, regular expressions and Unicode classes are not modelled; the text is taken after these substitutions, and the alphabet is a parameter.
- Rooms.RoomStore.CleanupBannedUser: the user's places in group voice rooms and recent messages, which the same transaction deletes, are not part of this model.
- GroupCleanup.Table.RunCleanup: is one call without interruption; the runs have its transactions as separate steps.
- MessageContent.SharedWords: 84 percent is compared in integers, not in floating point.
- HTTP, LiveKit, ffmpeg, image and archive code, UI components, deployment: foreign calls or plumbing.
