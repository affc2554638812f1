# Verification of the WhatsApp gateway

A Dafny model of the gateway that relays WhatsApp chats to PromptQL agents and
sends the agents' answers back. It covers what has to stay true across
asynchronous steps: who owns a chat, which claim answers which message, what a
slow fetch or a late timer may still do, and what may leave as a document.

Run `dafny verify dfyconfig.toml` in this directory.

## How it is built

- One module per component. State the program changes in place is a class; what
  an operation means is a function on values, and the theorems are about runs of
  those functions.
- An `await` is a call that lets every other party step any number of times:
  membership events, timers, other senders, other fetches. Whatever comes from
  outside (the agent, the codec, the transcriber, lookups, the clock) is an
  arbitrary value chosen at the place where the program asks for it, or a
  function passed in.
- SQL tables are maps or sequences. A claim token, a uuid in the program, is the
  next value of a counter. Times are integers supplied at each call; no theorem
  needs them to grow.
- A character is one UTF-16 unit in text and one Latin-1 byte in a PDF.

| component | files |
|---|---|
| idempotency log and claims | `OutboundLog.dfy`, `Claims.dfy` |
| bot rows, one chat's posting, its jobs | `ChatBots.dfy`, `Lane.dfy`, `Turns.dfy`, `Replays.dfy`, `Batches.dfy` |
| debounce buffers, promise chains, membership fence | `Buffers.dfy`, `Chains.dfy`, `Membership.dfy` |
| join waits, history capture, message table | `JoinTrace.dfy`, `JoinCapture.dfy`, `MessageStore.dfy` |
| metadata cache | `GroupMeta.dfy` |
| PDF text, file, payload, guard, dispatch | `PdfText.dfy`, `PdfWriter.dfy`, `PdfBytes.dfy`, `PdfPayload.dfy`, `FileNames.dfy`, `PdfGuard.dfy`, `Dispatcher.dfy` |
| captions and notes | `JsText.dfy`, `Captions.dfy`, `FailureNotes.dfy` |
| voice notes, photos | `MimeTypes.dfy`, `Voice.dfy`, `MediaFiles.dfy` |
| credentials and sessions, item identity | `Credentials.dfy`, `ItemIdentity.dfy` |

## What is not true of the code

Each of these is stated with a concrete run and the exact condition under which
the expected property does hold.

- A sent row can become failed: terminal writes compare the token, not the
  status (`SentCanBeUndone`, `SentStaysSentIff`).
- A batch carries only the epoch of its last message, so an earlier message of it
  is not fenced by a removal (`EarlierMessageIsNotFenced`); a batch passes if and
  only if its last message does (`BatchPassesIffLastDoes`, `FenceIsExact`).
- A metadata answer that names another group writes that group's row unfenced
  (`OtherGroupIsNotFenced`, `FinishKeepsFenceIff`), and a failed fetch may serve a
  row invalidated meanwhile (`FailedFetchMayBeStale`); the served row is still good
  if and only if the group's version stood still (`FoundRowIsStillGoodIff`,
  `ReadOrFetch`).
- A caption does not always end with the note about failed attachments: an invoice
  caption is a fixed sentence and drops it (`InvoiceCaptionDropsNote`), every other
  one keeps it (`NoteEndsCaptionIff`).
- A sourcer id with a bar can make two pieces share an id (`BarInSourcerCollides`);
  `FingerprintsAgreeIff` and `SameIdIff` say exactly which pieces share one.
- The two-minute stale window is shorter than the default wait for a response, so
  a claim can be lost during the wait (`ClaimCanBeLost`). It is lost if and only if
  its key is granted again (`ClaimIsLostIffGrantedAgain`), which takes a claim more
  than the window later (`ClaimIsLostIffClaimedLate`). The fence covers the log's
  rows, not the messages already sent; nothing here claims exactly-once delivery.

## Model

| member | source | states |
|---|---|---|
| `OutboundLogs.RowTokenIsLatestGrant` | src/storage/outboundLog.ts:32-73 | over any interleaving of senders, the token stored in a row is the one most recently granted for its key |
| `OutboundLogs.OnlyLatestGrantWrites` | src/storage/outboundLog.ts:75-132 | a terminal write takes effect if and only if it presents the latest grant; any other write returns false and leaves the log as it was |
| `OutboundLogs.SupersededForever` | src/storage/outboundLog.ts:32-132 | a superseded token never owns its row again, whatever happens next |
| `OutboundLogs.SentIsNeverGranted` | src/storage/outboundLog.ts:54-58 | a sent row is answered already_sent and claiming it changes no row |
| `OutboundLogs.SentStaysSentIff` | src/storage/outboundLog.ts:75-132 | a sent row stays sent throughout a run if and only if its own token is not used to mark it failed, because terminal writes check the token but not the status |
| `OutboundLogs.SentCanBeUndone` | src/storage/outboundLog.ts:75-132 | the concrete run in which one holder closes twice and a sent row becomes failed |
| `OutboundLogs.SentIsAbsorbing` | src/storage/outboundLog.ts:75-132 | when every holder makes at most one terminal write, sent is absorbing and the row never changes again |
| `OutboundLogs.AtMostOneDelivery` | src/storage/outboundLog.ts:32-132 | under single-use holders at most one write of a run closes a key as sent |
| `OutboundLogs.DeliveryInvariant` | src/storage/outboundLog.ts:32-132 | the invariant behind it: deliveries of a key are counted by its row status and token |
| `OutboundLogs.ClaimCanBeLost` | src/storage/outboundLog.ts:42-53 | the run: a second claim just past the stale window takes the row over and the first holder's write is refused |
| `OutboundLogs.ClaimIsLostIffGrantedAgain` | src/storage/outboundLog.ts:32-132 | a holder loses its claim if and only if its key is granted again meanwhile, whatever else anybody writes |
| `OutboundLogs.ClaimIsLostIffClaimedLate` | src/storage/outboundLog.ts:42-53 | while its holder writes nothing, a pending claim is lost if and only if somebody claims its key more than the stale window after it |
| `OutboundLogs.OutboundLog.Claim` | src/storage/outboundLog.ts:32-73 | new key, stale pending or failed row: a fresh token; sent: already_sent with its reference; young pending: in_flight and no change |
| `OutboundLogs.OutboundLog.Terminate` | src/storage/outboundLog.ts:75-132 | markSent, markRelayed and markFailed: true exactly for the latest grant, no change otherwise |
| `OutboundLogs.OutboundLog.RecordGatewayMessage` | src/storage/outboundLog.ts:103-112 | the gateway id is recorded once; an existing row is left alone |
| `OutboundLogs.OwnMessageIsRecognised` | src/storage/outboundLog.ts:103-120 | once its id is recorded first, our own message is recognised ever after, whatever any sender does |
| `OutboundLogs.GatewayKeysDiffer` | src/storage/outboundLog.ts:103-120 | recorded ids of different connections or messages never share a key |
| `ChatBots.OwnerAndRoomAreFixed` | src/storage/chatBotRepo.ts:116-160 | once a chat has an owner, no sequence of repository calls changes its owner or room |
| `ChatBots.OwnerIsGainedOnlyWithNewThread` | src/storage/chatBotRepo.ts:116-160 | an ownerless row gains an owner exactly by a shopper handle with another thread; owner, room and thread then change together |
| `ChatBots.ChatBotRepo.Upsert` | src/storage/chatBotRepo.ts:116-160 | insert, or promote an ownerless row, or keep owner and room and take thread and pause flag |
| `ChatBots.ChatBotRepo.SetMembership` | src/storage/chatBotRepo.ts:61-73 | membership row (keeping the first inviter of a stay) and the pause flag of the bot row move together |
| `ChatBots.ChatBotRepo.SetPendingPost` | src/storage/chatBotRepo.ts:84-90 | the pending slot of an existing row, nothing else |
| `MessageStores.KindIsFixed` | src/storage/messageStore.ts:50-80 | a stored message is live or history for ever: neither insert nor relay mark changes its kind |
| `MessageStores.ReplayList` | src/storage/messageStore.ts:95-113 | the replay list is every unrelayed history row of the group once, oldest first |
| `MessageStores.ReplayListIsWaitingOldestFirst` | src/storage/messageStore.ts:95-113 | as multisets the list and the waiting rows are equal, and the list is in time order |
| `MessageStores.TiesByRowid` | src/storage/messageStore.ts:95-113 | rows of one timestamp keep the order they were stored in |
| `MessageStores.MessageStore.Insert` | src/storage/messageStore.ts:35-70 | capture and captureHistory: true exactly when the row is new |
| `MessageStores.MessageStore.MarkRelayed` | src/storage/messageStore.ts:73-80 | marks the row and keeps the first mark |
| `Lanes.OwnerFixedOverRun` | src/routing/inboundRouter.ts:464-495 | over every run of one chat, with membership events at every await, a set owner and room never change |
| `Lanes.OwnerGainedOverRun` | src/routing/inboundRouter.ts:464-495 | an ownerless chat gains an owner only in a step that also changes its thread and has no pending post |
| `Lanes.PendingStaysOnItsBot` | src/routing/inboundRouter.ts:497-515 | while a pending post is stored the chat stays on the bot it was stored with |
| `Lanes.Lane.OnSelfMembership` | src/routing/inboundRouter.ts:215-222 | epoch grows unless the add is a duplicate; membership row and pause flag follow |
| `Lanes.Lane.Submit` | src/routing/inboundRouter.ts:464-495 | one ask on the stored thread, or on a new bot in the destination room when new or promoted, whose owner and room are then stored; refusal stores the pending post, transport errors store nothing |
| `Lanes.Lane.SubmitFilesOneByOne` | src/routing/inboundRouter.ts:432-462 | a split upload: one post per file, in order; a context post reads (image), (audio), (video) or (file) by the type of its file, and only the last carries the turn's text, mode and, on success, the whole delivery |
| `Lanes.Lane.SubmitTurn` | src/routing/inboundRouter.ts:396-430 | one post per file exactly when more than one file exceeds 5 MiB together; otherwise the whole body first, and one per file only behind an upload it was refused; at most 1 + n posts |
| `Lanes.Lane.SubmitWholeFirst` | src/routing/inboundRouter.ts:404-430 | the first post has all files and the turn's text; what follows, if anything, is one post per file |
| `Lanes.Lane.SplitRefused` | src/routing/inboundRouter.ts:413-430 | after a refused upload the split delivers every file, and success clears the slot |
| `Lanes.EstimateIsClose` | src/promptql/promptqlAdapter.ts:128-132 | the size estimate of a file is its encoded byte count or at most two more |
| `Lanes.EstimatesAdd` | src/promptql/promptqlAdapter.ts:128-132 | the estimate of a list is the sum over its parts |
| `Lanes.RelayQueryLabels` | src/routing/inboundRouter.ts:970-975 | each file gets exactly the label of its type prefix |
| `Lanes.Lane.AvailableMeans` | src/routing/inboundRouter.ts:307-312 | a direct chat is always available; a group exactly when not known to be left and without a membership event since |
| `Lanes.Lane.SubmitMediaAsk` | src/routing/inboundRouter.ts:897-964 | the ladder, rung by rung: the staged files; once more exactly when that upload was refused; the re-encoded ones exactly when it was refused again and re-encoding changes a file. Accepted means nothing pending, one accepted post with the response mode and the turn's text and it is the last, earlier ones force_skip, all files carried; refused means the slot holds the full query |
| `Lanes.Lane.SubmitOneFile` | src/routing/inboundRouter.ts:440-459 | a post that is not the last reads (image), (audio), (video) or (file) exactly by the type prefix of its one file and is context; the last carries the turn's text and mode |
| `Lanes.TurnPostsAfter` | src/routing/inboundRouter.ts:396-430 | context posts before a turn keep it delivered exactly once |
| `Claims.ClaimDesk.Claim` | src/routing/inboundRouter.ts:580-585 | a granted token is held by the job and owned by nobody else; afterwards the key cannot be claimed again at that instant |
| `Claims.ClaimDesk.Close` | src/routing/inboundRouter.ts:786-789 | a held token gets its one terminal write, and the log has exactly that write for its key |
| `Claims.ClaimDesk.HandOver` | src/routing/inboundRouter.ts:742-784 | a token given to a dispatch leaves the job unwritten |
| `Claims.ClaimDesk.Interfere` | src/storage/outboundLog.ts:32-132 | other senders never write with a token this chat holds or has closed |
| `Claims.UnissuedIsUnwritten` | src/storage/outboundLog.ts:32-73 | a token not yet issued has no write in the log |
| `Batches.ChatJobs.ClaimAll` | src/routing/inboundRouter.ts:580-585 | every valid message is claimed if it can be; none stays claimable |
| `Batches.ChatJobs.CloseAll` | src/routing/inboundRouter.ts:786-789 | every held token is closed once, each with the terminal write asked for |
| `Batches.ChatJobs.KeepPrimary` | src/routing/inboundRouter.ts:742-749 | every other claim is closed as relayed; the primary one is handed on unwritten |
| `Batches.ChatJobs.FindDestination` | src/routing/inboundRouter.ts:337-371 | dropped exactly for a left or unlinked group, without a room, or when nobody owns the chat and unregistered senders are not relayed; a stored owner stays, the first known room is taken from the most specific source, and a group qualifies exactly with a candidate |
| `Batches.ChatJobs.IdentityOf` | src/routing/inboundRouter.ts:373-380 | the client exactly when the owner (own messages) or the registered sender is missing or the group does not qualify; otherwise that shopper |
| `Batches.ChatJobs.RetryPending` | src/routing/inboundRouter.ts:497-515 | with a pending post and, for a client's, the setup complete: one context post with the stored text and poster on the stored bot; if accepted the slot is empty and the recovered message is closed as relayed in both tables; otherwise the turn is dropped |
| `Batches.ChatJobs.AskAndRespond` | src/routing/inboundRouter.ts:604-691 | an ask that got through delivered the grounded text and the staged files by the ladder; what follows is the answer due to the turn; a failed one closes all claims as failed |
| `Batches.ChatJobs.AskTurn` | src/routing/inboundRouter.ts:907-964 | the files are staged by image share, 4 MiB in all, before the ladder; accepted means the staged list arrived whole, or its smaller re-encode after two refused uploads |
| `Batches.ChatJobs.Ground` | src/routing/inboundRouter.ts:869-884 | what a batch says: every valid message's text, one slot per voice note with what was heard of its own file, and the files of the messages that are no voice notes; held exactly when all is audio and nothing was heard |
| `Turns.GroundingKeepsPlain` | src/routing/voiceTranscript.ts:149-160 | the alignment of files with messages by position keeps exactly the files whose own message is no voice note |
| `Turns.GroundingHears` | src/routing/voiceTranscript.ts:149-165 | and gives each voice note the transcript of its own file |
| `Turns.GroundedSays` | src/routing/inboundRouter.ts:869-884 | grounding yields what the batch says |
| `Turns.IsVoiceMeans` | src/routing/voiceTranscript.ts:99-113 | a voice note by its kind, the type of its media or the type of its file |
| `Turns.QueriesAre` | src/routing/inboundRouter.ts:604-610 | one text per valid message, in order |
| `Turns.ValidsInOrder` | src/routing/inboundRouter.ts:570 | the messages with something to post keep their order |
| `Turns.TriggeringIsLastMention` | src/routing/inboundRouter.ts:731 | the reply answers the last valid message that mentions the bot, or the last message |
| `Turns.OneImage` | src/promptql/mediaFiles.ts:240-242 | the four image types, parameters and case aside |
| `Turns.ImagesAdd` | src/promptql/mediaFiles.ts:185 | every image of a list counts once towards its share |
| `Turns.FlagsRan` | src/routing/inboundRouter.ts:590-691 | the triggers, the first greeting, the bare re-tag and the hold decide the mode and the reply as stated of ProcessBatch |
| `Batches.ChatJobs.Respond` | src/routing/inboundRouter.ts:694-784 | hold, context only, assistant note or reply exactly as the turn asks; a dispatch gets the thread that accepted the last post; the early return for a client identity is never reached |
| `Batches.ChatJobs.RunTurn` | src/routing/inboundRouter.ts:587-789 | from the claims on: the turn asks unless it cannot be read or its chat changed, and every way out closes all claims with the stated write or hands exactly one on, that of the last message that mentions the bot |
| `Batches.ChatJobs.ProcessBatch` | src/routing/inboundRouter.ts:558-814 | which batch becomes a turn, exactly; nothing stays held, at most one token is handed to one dispatch, unwritten; how each claim is closed; when the ask got through, its last post has force_respond if and only if the poster is a shopper, some valid message not from us is direct or mentions the bot, and the turn is no first greeting, no bare re-tag and not held; likewise for the assistant; if either holds and the chat is still available the reply is dispatched unless an ask failed, on the thread that accepted the last post, which is the only one that triggers the agent |
| `Batches.ChatJobs.Receive` | src/routing/inboundRouter.ts:558-579 | a batch becomes a turn exactly when it is no echo of ours, its chat is available, it has something to post and a destination, and a client's setup is complete |
| `Batches.ChatJobs.TakeTurn` | src/routing/inboundRouter.ts:604-789 | a turn once its voice notes are grounded |
| `Batches.ChatJobs.AskPa` | src/routing/inboundRouter.ts:712-718 | one post without files that makes the assistant of the owner answer |
| `Batches.ChatJobs.HandOn` | src/routing/inboundRouter.ts:728-784 | the claim of the triggering message goes to one dispatch with the thread, the others are relayed |
| `Replays.WaitingIsNotReplayed` | src/routing/inboundRouter.ts:834-862 | a row still in the replay list was never accepted before |
| `Batches.ChatJobs.ReplayRow` | src/routing/inboundRouter.ts:838-862 | one history row: accepted at most once, then marked, or left for a later replay |
| `Batches.ChatJobs.OnHistoryBatch` | src/routing/inboundRouter.ts:816-868 | a replay job posts an opening, one context post for each row of the list that can be read, in order, and a closing; it accepts only rows never accepted before, misses none that waited, and posts nothing once the membership changed |
| `Batches.ChatJobs.ReplayBracket` | src/routing/inboundRouter.ts:834-864 | opening, rows, closing |
| `Batches.ChatJobs.ReplayRows` | src/routing/inboundRouter.ts:838-862 | the posts are those of the readable rows, in order; what was accepted is marked |
| `Batches.ChatJobs.PostRow` | src/routing/inboundRouter.ts:838-857 | a row is posted as context with its text and at most its one file |
| `Replays.NoneMissed` | src/routing/inboundRouter.ts:816-836 | a list read later has every row that waited earlier and was not marked since |
| `Replays.NoneDropped` | src/routing/inboundRouter.ts:816-836 | a list read earlier has every row that waited then |
| `Replays.AcceptedIsMarked` | src/storage/messageStore.ts:73-80 | marking an accepted row takes it out of every later replay list |
| `Chains.NoOverlap` | src/routing/inboundRouter.ts:224-231 | no two jobs of one chat run at the same time, and a started job has all earlier ones behind it |
| `Chains.AfterStart` | src/routing/inboundRouter.ts:224-231 | starting a job when its predecessor settled keeps the order of the chat |
| `Chains.ChainMap.Enqueue` | src/routing/inboundRouter.ts:224-231 | a job waits for the promise the map holds for its chat, if any |
| `Chains.ChainMap.Start` | src/routing/inboundRouter.ts:224-231 | a job starts only with every earlier job of its chat settled |
| `Chains.ChainMap.Forget` | src/routing/inboundRouter.ts:227-229 | the map entry goes away only when it still names the settled job |
| `Buffers.BurstBuffers.Handle` | src/routing/inboundRouter.ts:233-284 | every handled message joins its open burst or leaves at once, and leaves at once only when no burst of its sender is open |
| `Buffers.BurstBuffers.Collect` | src/routing/inboundRouter.ts:249-284 | opening or extending a buffer re-arms exactly one timer and loses nothing |
| `Buffers.BurstBuffers.TouchBurst` | src/routing/inboundRouter.ts:201-213 | a download tick holds an open buffer, changes no message and opens none |
| `Buffers.BurstBuffers.Fire` | src/routing/inboundRouter.ts:286-305 | a firing timer enqueues exactly the buffered messages as one batch with the epoch of the last one |
| `Buffers.NeverOvertakes` | src/routing/inboundRouter.ts:233-305 | at any moment the begun work of a sender is a prefix of what was handled |
| `Buffers.BegunIsPrefix` | src/routing/inboundRouter.ts:224-305 | begun batches of a sender are the first ones enqueued |
| `Buffers.PassedOn` | src/routing/inboundRouter.ts:243-247 | a message without an open buffer becomes a batch of its own without breaking the order |
| `Buffers.Flushed` | src/routing/inboundRouter.ts:286-305 | a flush moves the buffer behind what was enqueued, once |
| `Buffers.Appended` | src/routing/inboundRouter.ts:274-284 | an appended message is last in its burst |
| `Buffers.StillWaits` | src/routing/inboundRouter.ts:187-193 | with the text debounce off every open buffer holds an image |
| `Buffers.SameBufferIff` | src/routing/inboundRouter.ts:173-185 | two messages share a buffer exactly when they share connection and chat and, in a group, the sender |
| `Buffers.AtOnceIff` | src/routing/inboundRouter.ts:187-193 | the wait is that for text, or with a photo the longer of the two; at once exactly when it is not positive |
| `Membership.PausedFromStart` | src/routing/inboundRouter.ts:382-388 | from an empty store a group row is paused exactly when its membership row says absent |
| `Membership.PausedExactlyWhenAbsent` | src/storage/chatBotRepo.ts:61-73 | the same invariant kept by every run |
| `Membership.EpochCounts` | src/routing/inboundRouter.ts:215-222 | the epoch never goes back and stands still exactly while only duplicate adds happen |
| `Membership.FenceIsExact` | src/routing/inboundRouter.ts:307-312 | a batch accepted earlier is available if and only if only duplicate adds happened since and the group was not absent |
| `Membership.RemovedIsFencedForever` | src/routing/inboundRouter.ts:307-312 | after a removal nothing accepted before it is ever available, re-add or not |
| `Membership.EarlierMessageIsNotFenced` | src/routing/inboundRouter.ts:274-305 | the run: buffered, group left and joined again, one more message, flush; the batch holds both and passes, though the first alone would be dropped |
| `Membership.OneBurst` | src/routing/inboundRouter.ts:233-305 | two messages of one sender within the window leave as one batch, whatever their epochs |
| `Membership.BatchPassesIffLastDoes` | src/routing/inboundRouter.ts:286-312 | a flushed group batch passes if and only if its last message does: only duplicate adds since that one was taken in, and the group was there; earlier messages play no part |
| `Membership.MembershipFence.OnSelfMembership` | src/routing/inboundRouter.ts:215-222 | the step of the state machine the theorems are about |
| `Membership.MembershipFence.Remember` | src/routing/inboundRouter.ts:382-388 | a remembered group is paused exactly when absent now |
| `JoinTraces.ReleasedOnce` | src/whatsapp/socket.ts:487-494 | two releases of one group never belong to the same epoch: each join wait is released at most once |
| `JoinTraces.ReleaseIsFaithful` | src/whatsapp/socket.ts:487-494 | every released message was held earlier in the same epoch and the captured history was offered before |
| `JoinTraces.CapturedIsOffered` | src/whatsapp/socket.ts:616-651 | history captured in an epoch was offered once nothing is unoffered |
| `JoinTraces.HeldBefore` | src/whatsapp/socket.ts:773-777 | what a wait holds was taken up after the last membership change |
| `JoinCapture.WaitIsCurrent` | src/whatsapp/socket.ts:442-477 | every join wait has the current epoch of its group and holds what was taken up in it, in order |
| `JoinCapture.NeverBothRoutes` | src/whatsapp/socket.ts:762-832 | no stored group message goes both live and through history |
| `JoinCapture.Connection.OnSelfMembership` | src/whatsapp/socket.ts:442-477 | a duplicate add keeps the wait; any other change drops it, advances the epoch, and a join may open a new one |
| `JoinCapture.Connection.Clear` | src/whatsapp/socket.ts:289-331 | link and unlink drop all waits without a membership change |
| `JoinCapture.Connection.Hold` | src/whatsapp/socket.ts:773-777 | a message of the wait is held if it is of its epoch, else dropped |
| `JoinCapture.Connection.HandleLive` | src/whatsapp/socket.ts:762-832 | held while a wait is open; otherwise stored, and routed exactly when new, not ours, not failed and the group still in the epoch of its batch; direct messages go on unless ours or failed |
| `JoinCapture.Connection.OnMessagesUpsert` | src/whatsapp/socket.ts:762-832 | of a group without a wait that stays in the snapshot's epoch exactly the due messages are routed, in order; of any other at most some; direct messages go on in order |
| `JoinCapture.Connection.Capture` | src/storage/messageStore.ts:35-70 | a message is live exactly once: captured if and only if not stored before |
| `JoinCapture.Connection.ReplayOne` | src/routing/inboundRouter.ts:853-856 | an accepted history row is new to the replay and marked |
| `JoinCapture.Connection.NotifyHistory` | src/whatsapp/socket.ts:479-485 | history is offered and the replay awaited; nothing stored is lost |
| `JoinCapture.Connection.ReleaseJoinWait` | src/whatsapp/socket.ts:487-494 | the wait is removed first; while the group stays in its epoch every held message that did not fail, is not ours and was not stored before goes to the router, in the held order; the epoch re-check never fails |
| `JoinCapture.DueHasAll` | src/whatsapp/socket.ts:762-832 | every due message is among those released |
| `JoinCapture.Connection.OfferAndRelease` | src/whatsapp/socket.ts:640-651 | the captured history is offered before the held messages follow |
| `JoinCapture.Connection.JoinWaitElapsed` | src/whatsapp/socket.ts:466-473 | a timer of another epoch does nothing; one of this epoch releases what is due, in order, and leaves no wait of it open |
| `JoinCapture.Connection.CaptureEntries` | src/whatsapp/socket.ts:620-639 | all entries are stored, oldest first |
| `JoinCapture.Connection.GroupHistory` | src/whatsapp/socket.ts:616-651 | a pending group of the batch epoch has all entries stored and offered; the final chunk alone ends its pending state, releases what is due and leaves no wait of that epoch open |
| `JoinCapture.Connection.OnHistoryBatch` | src/whatsapp/socket.ts:580-652 | every entry of a group pending in the batch's epoch is stored, unless its membership changes or the connection is linked anew before its turn; a chunk that is not final ends no pending state, a final one exactly that of the groups in its epoch |
| `JoinCapture.Connection.GroupEntries` | src/whatsapp/socket.ts:593-607 | exactly the pending groups of the batch epoch, each once, with all their entries in order |
| `JoinCapture.Connection.AddPending` | src/whatsapp/socket.ts:609-615 | a final chunk also completes pending groups it does not mention |
| `JoinCapture.SortedIsAll` | src/whatsapp/socket.ts:620-623 | reversing and sorting by time loses no entry |
| `JoinCapture.TiesAreReversed` | src/whatsapp/socket.ts:620-623 | entries of one timestamp come in reverse order of arrival, as the newest-first batch is reversed |
| `GroupMeta.FinishKeepsFenceIff` | src/whatsapp/groupMeta.ts:163-169 | the end of a fetch keeps all rows fresh if and only if its answer names the group asked for, or a group not invalidated since |
| `GroupMeta.FinishKeepsRemoved` | src/whatsapp/groupMeta.ts:91-93 | a removed group never gets a row, whatever fetch ends |
| `GroupMeta.FinishKeepsFence` | src/whatsapp/groupMeta.ts:163-169 | whatever a fetch answers, fetches in flight keep fitting their versions and removed groups stay without a row |
| `GroupMeta.InvalidateKeepsFence` | src/whatsapp/groupMeta.ts:73-84 | removal and invalidation keep the fence and outdate fetches in flight |
| `GroupMeta.OtherGroupIsNotFenced` | src/whatsapp/groupMeta.ts:91-114 | the run in which an answer about another group revives an invalidated row |
| `GroupMeta.FailedFetchMayBeStale` | src/whatsapp/groupMeta.ts:170-177 | the run: the group is invalidated while a fetch is out, the fetch fails, and the row it found is served though it is gone and outdated |
| `GroupMeta.FoundRowIsStillGoodIff` | src/whatsapp/groupMeta.ts:170-177 | over whatever happens in between, a row found fresh was still fetched after the latest invalidation if and only if the group's version stood still |
| `GroupMeta.GroupMetaStore.ReadOrFetch` | src/whatsapp/groupMeta.ts:155-178 | nothing for a removed group; a young row as it is, without a fetch; otherwise the answer, unless the version moved meanwhile, and it is the stored row, fetched after the latest invalidation while answers name their group; a failed fetch answers with the row found at the start, which is still good if and only if the version has not moved |
| `GroupMeta.GroupMetaStore.Await` | src/whatsapp/groupMeta.ts:166 | whatever other callers do while a fetch waits, its version still decides |
| `GroupMeta.GroupMetaStore.Remove` | src/whatsapp/groupMeta.ts:73-77 | the group is barred, its version advances, its row goes |
| `GroupMeta.GroupMetaStore.Invalidate` | src/whatsapp/groupMeta.ts:79-84 | the version advances and the row goes |
| `GroupMeta.GroupMetaStore.AllowFetch` | src/whatsapp/groupMeta.ts:86-88 | only the bar is lifted |
| `GroupMeta.GroupMetaStore.ApplyPartialUpdate` | src/whatsapp/groupMeta.ts:117-131 | a subject change touches an existing row only |
| `PdfText.ThreePassesAreOne` | src/routing/invoicePdfGuard.ts:390-394 | the three replace passes equal a one-pass escaper |
| `PdfText.StringRoundTrip` | src/routing/invoicePdfGuard.ts:390-394 | a literal-string reader by section 7.3.4.2 of ISO 32000-1 gets every text back with non-ASCII as ?, and stops exactly behind it |
| `PdfText.StreamShowsLines` | src/routing/invoicePdfGuard.ts:396-406 | reading the content stream gives the non-empty lines in order |
| `PdfText.RenderContent` | src/routing/invoicePdfGuard.ts:396-406 | the drawing loop writes exactly the content stream of the lines |
| `PdfText.DecimalLength` | src/routing/invoicePdfGuard.ts:429 | a number has at most k digits exactly below 10^k |
| `PdfWriter.EntryIsTwentyBytes` | src/routing/invoicePdfGuard.ts:428-430 | a cross-reference entry is 20 bytes exactly when its offset fits ten digits, and then reads back |
| `PdfWriter.XrefIsExact` | src/routing/invoicePdfGuard.ts:417-431 | startxref leads to xref, and entry n holds the exact offset where object n begins (sections 7.5.4, 7.5.5) |
| `PdfWriter.StreamReads` | src/routing/invoicePdfGuard.ts:412 | /Length is the exact byte count of the stream (section 7.3.8) |
| `PdfWriter.StreamInFile` | src/routing/invoicePdfGuard.ts:417-431 | the stream is found and read through trailer and table |
| `PdfWriter.TextRoundTrip` | src/routing/invoicePdfGuard.ts:396-432 | the whole way back: trailer, table, stream, strings give the lines in order |
| `PdfWriter.RenderPdf` | src/routing/invoicePdfGuard.ts:396-432 | the writer loops produce that file for every line list |
| `PdfWriter.WriteObjects` | src/routing/invoicePdfGuard.ts:417-422 | the offsets kept are the positions of the objects |
| `PdfWriter.WriteXref` | src/routing/invoicePdfGuard.ts:423-431 | table and trailer are written from those offsets |
| `PdfBytes.FileSurvivesLatin1` | src/routing/invoicePdfGuard.ts:396-432 | every character of the file is below 0x80, whatever the lines, so the Latin-1 bytes that are sent read back as the file |
| `PdfBytes.BytesRoundTrip` | src/routing/invoicePdfGuard.ts:396-432 | from the sent bytes: trailer, table, stream and strings give the lines in order |
| `PdfPayloads.PdfPayload` | src/promptql/promptqlAdapter.ts:324-336 | the payload starts at the first %PDF- header, and there is one exactly when it follows the lead or lies within an allowed preamble |
| `PdfPayloads.PayloadStartMeans` | src/promptql/promptqlAdapter.ts:324-336 | the same decision as a value |
| `PdfPayloads.PreambleAgrees` | src/promptql/promptqlAdapter.ts:324-336 | bytes taken for a PDF without a preamble are taken for the same PDF with one |
| `PdfPayloads.PayloadBytes` | src/promptql/promptqlAdapter.ts:308-316 | the sent bytes begin with the header and are no longer than the payload |
| `PdfPayloads.LeadMeans` | src/promptql/promptqlAdapter.ts:324-328 | only a byte order mark and then blanks, tabs and line ends may stand before a leading header |
| `PdfGuard.RealPdfIsSentAsPdf` | src/routing/invoicePdfGuard.ts:173-184 | whatever counts as a real PDF leaves as application/pdf named .pdf, within the cap, from its first header |
| `PdfGuard.PdfLeavesFromHeader` | src/routing/invoicePdfGuard.ts:173-184 | a file in which a PDF is found, behind a preamble only if it is application/pdf or application/octet-stream, leaves as application/pdf from its header on, under its own name or the one made of it |
| `PdfGuard.OtherLeavesAsItIs` | src/routing/outboundDispatcher.ts:538-544 | any other file leaves unchanged |
| `PdfGuard.IsApplicationPdfIff` | src/routing/invoicePdfGuard.ts:161-164 | a real PDF has that type and a leading header |
| `FileNames.NameOfFile` | src/routing/invoicePdfGuard.ts:181-182 | a trimmed name ending in .pdf in any case is kept; one ending in a text extension keeps its stem and gets .pdf; any other gets .pdf; a blank one becomes document.pdf |
| `FileNames.TextExtensionsAre` | src/routing/invoicePdfGuard.ts:181 | those extensions are .html, .htm, .json, .md, .txt and .csv, in any case |
| `FileNames.DocumentNameIsPdf` | src/routing/invoicePdfGuard.ts:181-182 | every document name ends in .pdf |
| `PdfGuard.BuiltInvoiceIsPdf` | src/routing/invoicePdfGuard.ts:255-256 | the gateway invoice always passes the check it is put to |
| `PdfGuard.SeptRulesBuildPdfs` | src/routing/invoicePdfGuard.ts:255-256 | so the exact decision applies to the gateway's own rules, for every set of facts |
| `PdfGuard.BuiltInvoiceSaysTheFacts` | src/routing/invoicePdfGuard.ts:323-343 | reading the bytes of the built invoice back gives title, number, date and each stated fact, labelled, in order |
| `PdfGuard.InvoiceSays` | src/routing/invoicePdfGuard.ts:323-333 | the lines of the invoice, written out |
| `PdfGuard.InvoiceFileNameIs` | src/routing/invoicePdfGuard.ts:384-388 | the file name is the letters, digits, dots and dashes of the number, behind SEPT- unless they begin with it in any case, and ends in .pdf |
| `PdfGuard.SafeOnlyOfBoth` | src/routing/invoicePdfGuard.ts:385 | they are kept in order |
| `PdfGuard.GuardIsSound` | src/routing/invoicePdfGuard.ts:280-320 | an enforced turn without a real PDF never leaves unchanged: one PDF within the cap or the preparing line |
| `PdfGuard.DecisionIsExact` | src/routing/invoicePdfGuard.ts:280-320 | exactly when a stored, a built or no PDF is attached |
| `PdfGuard.DocumentTurnNeverInvoice` | src/routing/invoicePdfGuard.ts:299-304 | a document turn never attaches an invoice-named file |
| `PdfGuard.ReferenceIsNotReplaced` | src/routing/invoicePdfGuard.ts:248-262 | a failed official reference is never replaced by a PDF built from chat |
| `PdfGuard.InvoiceEntriesAgree` | src/routing/invoicePdfGuard.ts:306-318 | for invoices the two entry points decide alike |
| `PdfGuard.BuildInvoice` | src/routing/invoicePdfGuard.ts:323-343 | the builder writes exactly that artifact |
| `Captions.CaptionBounds` | src/routing/sanitizer.ts:154-172 | every caption is at most 1024 characters, and a failure note ends it whole exactly when it fits |
| `Captions.PrefixSurvives` | src/routing/sanitizer.ts:158-169 | a matching prefix opens the caption whole when prefix and note are at most 700 characters |
| `Captions.UnprefixedIsShort` | src/routing/sanitizer.ts:154-172 | an unprefixed body is at most 320 characters and 4 visible lines, kept whole beside any note up to 702 characters |
| `Captions.ShortBodyBounds` | src/routing/sanitizer.ts:315-336 | the shortened body is at most 320 characters and 4 visible lines |
| `Captions.KeptAreTheFirst` | src/routing/sanitizer.ts:322-333 | what is kept are the first visible lines, in order, up to the limit |
| `JsText.CollapsedHasNoGap` | src/routing/sanitizer.ts:333 | at most two line feeds in a row are left |
| `Captions.ClipIsSlice` | src/routing/sanitizer.ts:338-348 | a clip is a piece of the text within the limit |
| `Captions.ClipEndsASentence` | src/routing/sanitizer.ts:340-345 | it ends at the last sentence end past 40 characters |
| `Captions.WordCutMeans` | src/routing/sanitizer.ts:338-348 | without such a sentence the clip drops at most the last, cut word |
| `Captions.ShortReplyIsWhole` | src/routing/sanitizer.ts:154-172 | a reply within all limits is kept as it is |
| `Captions.NoteFoundIff` | src/routing/sanitizer.ts:309-313 | a note is found exactly when the text ends with an empty line and a note |
| `Captions.NoteIsTheLastParagraph` | src/routing/sanitizer.ts:309-313 | and then it is that note, and the rest is the body |
| `Captions.Clip` | src/routing/sanitizer.ts:338-348 | the loop over sentence ends computes that clip |
| `Captions.Shorten` | src/routing/sanitizer.ts:315-336 | the loop over lines computes that body |
| `Captions.Caption` | src/routing/sanitizer.ts:154-172 | the whole caption as computed |
| `FailureNotes.FailureNoteIsNote` | src/routing/outboundDispatcher.ts:568-584 | every note about failed attachments has the form the caption splitter looks for |
| `FailureNotes.FailureNoteSurvives` | src/routing/sanitizer.ts:154-172 | whatever the reply, the prefix and the failures, the note stands whole at the end of a document caption |
| `FailureNotes.CountReasons` | src/routing/outboundDispatcher.ts:570-571 | the counting loop counts each reason |
| `FailureNotes.NoteOfOneReason` | src/routing/outboundDispatcher.ts:568-584 | the note in full for one reason |
| `FailureNotes.NoteOfBothReasons` | src/routing/outboundDispatcher.ts:568-584 | and for both, the first reason met first |
| `Dispatcher.GuardedRunIsSafe` | src/routing/outboundDispatcher.ts:199-292 | an enforced turn without a real PDF sends at most one message: one PDF within the cap from its first header, never an invoice on a document turn, or the preparing line |
| `Dispatcher.Guard` | src/routing/outboundDispatcher.ts:199-292 | an enforced draft without a real PDF becomes a guarded one; any other keeps its text and files, has the invoice caption exactly when a real PDF is presented as an invoice, and the document caption exactly when it is not and a document turn has one |
| `Dispatcher.Enforce` | src/routing/outboundDispatcher.ts:241-287 | the exact decision: the stored PDF if usable and no invoice on a document turn; else on an invoice turn the one built from stated facts, if no official file failed; else the preparing line |
| `Dispatcher.MustGuardIff` | src/routing/outboundDispatcher.ts:214-218 | enforced exactly for a completed answer that must not leave without a real PDF and has none |
| `Dispatcher.OfficialReferenceIff` | src/routing/outboundDispatcher.ts:219-239 | a PDF reference counts as failed download unless it came back as a skipped chip or as a file that is no PDF |
| `Dispatcher.UnansweredReferenceIff` | src/routing/outboundDispatcher.ts:219-239 | one that came back as nothing counts |
| `Dispatcher.SplitMeans` | src/routing/outboundDispatcher.ts:123-145 | tagged references come first; without any, those the answer mentions; none of an answer that is not completed |
| `Dispatcher.ResolveMeans` | src/routing/outboundDispatcher.ts:172-190 | if references cannot be resolved at all each is missing |
| `Dispatcher.PreferMeans` | src/promptql/promptqlAdapter.ts:1283-1295 | beside a file labelled PDF an invoice in another form is not attached, images excepted |
| `Dispatcher.AttachableIff` | src/routing/outboundDispatcher.ts:193-195 | attached are exactly the resolved files that are no HTML chips |
| `Dispatcher.AttachedInOrder` | src/routing/outboundDispatcher.ts:193-195 | in the order of the references |
| `Dispatcher.FailuresInOrder` | src/routing/outboundDispatcher.ts:196-197 | the failures noted, in order |
| `Dispatcher.FailureOfOne` | src/routing/outboundDispatcher.ts:196-197 | a skipped chip is no failure, anything else missing is one |
| `Dispatcher.FactTextsInOrder` | src/routing/outboundDispatcher.ts:255-258 | the facts stated in missing files, in order |
| `Dispatcher.SupplementalIsShort` | src/routing/outboundDispatcher.ts:255-258 | the facts of missing files, up to 4000 characters |
| `Dispatcher.Compose` | src/routing/outboundDispatcher.ts:294-314 | the caption in full: the cleaned text with the note where nothing is attached; the fixed sentence behind the welcome with an invoice; at most 1024 characters with another document, never empty where a fallback is due; the failure note at its end exactly when it is not an invoice caption |
| `Dispatcher.NoteEndsCaptionIff` | src/routing/outboundDispatcher.ts:307-314 | the failure note ends the caption if and only if there is no attachment or the caption is not an invoice caption |
| `Dispatcher.InvoiceCaptionDropsNote` | src/routing/outboundDispatcher.ts:307-314 | the draft that loses its note: a real invoice PDF and one file too large |
| `Dispatcher.DocumentCaptionFits` | src/routing/outboundDispatcher.ts:307-314 | a document caption is within WhatsApp's limit and not empty when a fallback is due |
| `Dispatcher.PreparingGate.Pass` | src/routing/outboundDispatcher.ts:321-332 | two preparing lines of a chat are at least 120 s apart, whatever the clock does |
| `Dispatcher.Dispatching.Recorded` | src/storage/outboundLog.ts:103-112 | our own message id is in the log before the message is handed over |
| `Dispatcher.Dispatching.SendFirst` | src/routing/outboundDispatcher.ts:336-386 | the outcome of the first send decides the one terminal write, which is in the log; what was handed over had its own id recorded |
| `Dispatcher.Dispatching.SendRest` | src/routing/outboundDispatcher.ts:388-415 | the other artifacts follow in order without a caption: one that cannot be handed over is skipped, a left chat ends it, each has its id recorded, and the claim is never touched |
| `Dispatcher.AllSendsCarry` | src/routing/outboundDispatcher.ts:336-415 | the first sending carries the caption, the others none |
| `Dispatcher.Dispatching.Dispatch` | src/routing/outboundDispatcher.ts:95-416 | every path makes exactly one terminal write with the claim token, and it is the one stated; the first sending carries exactly the composed caption, as the text or with the first file, later ones none; every id handed over is in the log under its chat |
| `Dispatcher.Dispatching.Deliver` | src/routing/outboundDispatcher.ts:315-416 | nothing goes out exactly for an empty reply, a first send that is not handed over (left chat, connection not linked, refused field) or a preparing line the gate refused; otherwise the reply with its caption, and after a confirmed one the others, bare |
| `Dispatcher.Dispatching.DispatchDirectText` | src/routing/outboundDispatcher.ts:444-501 | the direct text is sent trimmed or not at all, with the one terminal write its outcome asks for |
| `Dispatcher.Dispatching.Fail` | src/routing/outboundDispatcher.ts:503-513 | a failure is one terminal write |
| `Dispatcher.RestGoesOutIff` | src/routing/outboundDispatcher.ts:390-415 | all other artifacts go out, bare and in order, if and only if every send is handed over |
| `Dispatcher.NothingAfterLeaving` | src/routing/outboundDispatcher.ts:391-410 | no artifact behind a left chat is handed over |
| `Voice.GroundVoiceTurn` | src/routing/voiceTranscript.ts:121-192 | no audio file in the output; kept are exactly the non-audio files no audio message carries, in order; one slot per audible message and trailing audio file, with what was heard of that file; nothing audible changes nothing |
| `Voice.GroundMessages` | src/routing/voiceTranscript.ts:149-160 | the loop over messages aligns files with ready messages |
| `Voice.GroundTrailing` | src/routing/voiceTranscript.ts:161-165 | the loop over files no message carries |
| `Voice.SlotMeans` | src/routing/voiceTranscript.ts:133-147 | a slot is empty exactly when nothing but white space was heard, has at most 8000 characters, and below that every character heard, in order |
| `Voice.OneSpacedBoth` | src/routing/voiceTranscript.ts:141 | white space is evened out run by run |
| `Voice.OneSpacedRun` | src/routing/voiceTranscript.ts:141 | a run becomes one space |
| `Voice.SilentKeepsAll` | src/routing/voiceTranscript.ts:168-176 | with nothing audible the kept files are all files |
| `Voice.NextMessageKeeps` | src/routing/voiceTranscript.ts:149-160 | one more message decides only about the file it carries |
| `MimeTypes.MimeIgnoresParameters` | src/routing/voiceTranscript.ts:104-106 | a type is compared without its parameters |
| `MimeTypes.MimeIgnoresCase` | src/routing/voiceTranscript.ts:104-106 | and without regard to case |
| `JsText.TrimMeans` | src/routing/voiceTranscript.ts:141 | trimming cuts exactly the white space at both ends |
| `MediaFiles.ScaleIsBounded` | src/promptql/mediaFiles.ts:77-85 | scaled sides lie in 1..maxEdge, never grow, and the longer one hits the limit exactly, for any product less than one half away from the exact one |
| `MediaFiles.ScaledIsClose` | src/promptql/mediaFiles.ts:77-85 | each scaled side is within one of the exact one |
| `MediaFiles.SourceInBounds` | src/promptql/mediaFiles.ts:95-107 | every read of the resize is inside the source |
| `MediaFiles.SameSizeIsIdentity` | src/promptql/mediaFiles.ts:88-109 | equal sizes copy the picture |
| `MediaFiles.PixelSource` | src/promptql/mediaFiles.ts:96-106 | each colour byte comes from the pixel at the scaled floor coordinates |
| `MediaFiles.SourceAtIsFloor` | src/promptql/mediaFiles.ts:95-107 | the source coordinate is the exact floor of the scaled one |
| `MediaFiles.ResizeRgba` | src/promptql/mediaFiles.ts:88-109 | the array loops write exactly that, in bounds |
| `MediaFiles.ShrinkTo` | src/promptql/mediaFiles.ts:134-137 | the picture tried at one edge: the decoded one, or its resize by those loops |
| `MediaFiles.PickMeans` | src/promptql/mediaFiles.ts:132-147 | the first output within the cap; else the smallest, if it beats the original; else the original |
| `MediaFiles.SmallestIsSmallest` | src/promptql/mediaFiles.ts:142 | best is the smallest output so far |
| `MediaFiles.PickIsBounded` | src/promptql/mediaFiles.ts:132-150 | whatever the codec does the result is at most the cap or the original |
| `MediaFiles.EncodeJpegUnder` | src/promptql/mediaFiles.ts:125-151 | the nested loops over edges and qualities, resizing as above, make that choice; the original for what is no decodable JPEG |
| `MediaFiles.TryAt` | src/promptql/mediaFiles.ts:133-144 | the order of the tries: edge by edge, quality by quality |
| `MediaFiles.SharesFitIff` | src/promptql/mediaFiles.ts:185-186 | the shares fit the budget exactly when 48 KiB times the images does |
| `MediaFiles.PerImageMeans` | src/promptql/mediaFiles.ts:185-186 | the share is an equal part of the budget, between 48 KiB and 900 KiB |
| `MediaFiles.UploadWithinBudget` | src/promptql/mediaFiles.ts:181-188 | when each image meets its share and the smallest share allows it, the total is within budget |
| `MediaFiles.StagePromptQlFiles` | src/promptql/mediaFiles.ts:181-188 | every file in place; a decodable JPEG becomes the pick of its re-encodes under its share, any other file stays; within the stated bounds |
| `Credentials.SetActiveIsExact` | src/storage/credentialStore.ts:56-83 | setting a credential makes it the only active one of its pair and touches no other |
| `Credentials.RevokeIsExact` | src/storage/credentialStore.ts:86-95 | revoking leaves the pair without an active credential, since there was at most one |
| `Credentials.TwoActiveSurviveRevoke` | src/storage/credentialStore.ts:86-95 | without that invariant a revocation would miss the second row |
| `Credentials.Gateway.SetActive` | src/storage/credentialStore.ts:56-83 | revoke then insert, as one step |
| `Credentials.Gateway.RevokeActive` | src/storage/credentialStore.ts:86-95 | true exactly when one was active |
| `Credentials.Gateway.Setup` | src/http/adminApi.ts:168-185 | the client token changes and its session is dropped |
| `Credentials.Gateway.Register` | src/http/adminApi.ts:297-319 | both identities change and both sessions are dropped |
| `Credentials.Gateway.Rotate` | src/http/adminApi.ts:364-368 | the token changes and the session is dropped |
| `Credentials.Gateway.Revoke` | src/http/adminApi.ts:387-388 | no token and no session remain |
| `Credentials.Gateway.Lookup` | src/promptql/promptqlAdapter.ts:622-649 | a session handed out carries the identity's current token; none without a credential |
| `ItemIdentity.NormalFormHasNoBar` | src/modules/recognition/item_identity_resolver.py:50-55 | no normal form contains the separator |
| `ItemIdentity.NormalFormKeepsLetters` | src/modules/recognition/item_identity_resolver.py:50-55 | a normal form has every word character of the lower-cased text, in order, and no other |
| `ItemIdentity.NormalFormKeepsWords` | src/modules/recognition/item_identity_resolver.py:50-55 | and its words |
| `ItemIdentity.NormalFormIsSpaced` | src/modules/recognition/item_identity_resolver.py:50-55 | one space apart |
| `ItemIdentity.FingerprintsAgreeIff` | src/modules/recognition/item_identity_resolver.py:157-177 | two normalized pieces share a fingerprint if and only if the six fields agree and the sourcer ids with their image hashes are the same characters |
| `ItemIdentity.FingerprintIsInjective` | src/modules/recognition/item_identity_resolver.py:157-177 | without a bar in the sourcer ids fingerprints agree exactly when the identities do |
| `ItemIdentity.BarInSourcerCollides` | src/modules/recognition/item_identity_resolver.py:171-177 | with a bar in the sourcer id two identities share a fingerprint |
| `ItemIdentity.IdIffFingerprint` | src/modules/recognition/item_identity_resolver.py:142-181 | ids are equal exactly when fingerprints are, if the digest does not collide on these two |
| `ItemIdentity.SameIdIff` | src/modules/recognition/item_identity_resolver.py:142-181 | two sightings get one id exactly when the normalized attributes agree and sourcer and image-hash field run together agree, whatever the chat |
| `ItemIdentity.SameIdIffSamePiece` | src/modules/recognition/item_identity_resolver.py:142-181 | with sourcer ids that have no bar: exactly when normalized attributes, sourcer and image hash agree |
| `ItemIdentity.HypothesesCanHold` | src/modules/recognition/item_identity_resolver.py:142-181 | for any two identities a digest and a reading of characters exist that meet what the two theorems ask |
| `ItemIdentity.KeepsBooks` | src/modules/recognition/item_identity_resolver.py:211-253 | each entry has seen exactly the records of its piece and the frequencies sum to the history length |
| `ItemIdentity.IngestCountsOnce` | src/modules/recognition/item_identity_resolver.py:211-243 | one sighting adds one to the sum, new piece or not |
| `ItemIdentity.ItemIdentityResolver.ResolveAndIngestPiece` | src/modules/recognition/item_identity_resolver.py:183-253 | ingesting keeps the books; deduplicated exactly when the piece was seen before |

## Left out

- Lanes.Lane.SubmitTurn: the history replay's variant with `rememberFailure` off and a split upload is not modelled, because a history row carries at most one file and so never splits.
- Lanes.Lane.Submit: a continued thread is taken to answer with its own id, and a new thread with an id other than the one stored for the chat.
- Batches.ChatJobs.ProcessBatch: acknowledgement reactions, workflow rows, the notices sent to the chat and the welcome log are not modelled, nor are the relay marks set on live rows, which no replay reads; the welcome text is recorded only at delivery, so it is not at-most-once.
- Batches.ChatJobs.AskAndRespond: the wording of a message, the client envelope, the merging of transcripts and the prompt texts are functions passed in, and so are the text and file a history row is prepared to.
- MediaFiles.EncodeJpegUnder: the JPEG codec, the machine's product, base64 and the sniffing of image types are functions or flags passed in; the router's jobs take the resulting re-encoders as functions of a file.
- Captions.Caption: the cleaning of outbound text before the caption is a function passed in.
- ItemIdentity.SameIdIff: the statement assumes that the digest cut to 12 characters does not collide on the two fingerprints compared; Python's character classes and lower-casing are passed in.
- ItemIdentity.ItemIdentityResolver.ResolveAndIngestPiece: the history record of the program refers to the shared ledger entry; here it keeps the piece id, so later changes seen through that reference are not modelled. The provenance rule that fills the attributes is left out.
- PdfGuard.DecisionIsExact: the regular expressions that find claims, names and facts, and the printed issue date, are passed in.
- Dispatcher.Dispatching.Dispatch: parsing of artifact tags, the text cleaners and the recovery of stored PDFs are passed in or answered from outside; the release of attachment memory is not modelled.
- JoinCapture.Connection.HandleLive: parsing, media download, the hand-off between bursts and encryption of stored history are not modelled; the hand-off to the router directly follows the last staleness check.
- Voice.GroundVoiceTurn: what the transcriber answers about a file is a function passed in; merging the transcript block into the query text is left out.
- Credentials.Gateway.Lookup: schema checks of tokens, encryption and the session protocol are left out.
- Schema validation errors, audit rows, logging and masking are left out everywhere.
- Baileys, HTTP, the MCP transport, speech-to-text and SQLite appear only as arbitrary answers or as maps.
- The anti-ban queue is not part of this model; sending is one step that succeeds, is refused because the chat was left, throws before anything is handed over, or fails afterwards.
- The deal manager, the search gate, the matching score, the reconnect counters and the ephemeral media store would only add easy members.
